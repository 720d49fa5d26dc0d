/** The message dispatcher of app/core/dispatcher.py: sequence numbers,
    routing of received packets to handlers, the table of packets awaiting
    an acknowledgement with its timeout and retransmission sweep, and the
    link watchdog. Clock readings are passed in as `now`; handlers and
    callbacks are opaque identities whose invocations are recorded, in
    order, in an event log. */
module Dispatch {
  import opened Common
  import Protocol
  import Transport

  /** The identity of a packet handler, an acknowledgement callback or the
      watchdog callback. */
  type HandlerId = nat

  /** A call the dispatcher makes into code it does not own. */
  datatype Event =
    | Handled(handler: HandlerId, packet: Protocol.Packet)
    | AckDone(callback: HandlerId, success: bool)
    | WatchdogFired(callback: HandlerId)

  /** `_next_seq` works modulo 2^16 (`& 0xFFFF`). */
  const SeqModulus: int := 0x1_0000
  /** An unacknowledged packet is resent after 200 ms... */
  const AckTimeout: real := 0.2
  /** ...at most three times. */
  const MaxRetries: int := 3
  /** The watchdog fires once nothing has arrived for one second. */
  const WatchdogTimeout: real := 1.0

  /** `_next_seq`: the counter after one more packet. On a counter that is
      never negative, `& 0xFFFF` is the remainder modulo 2^16. */
  function NextSeq(c: nat): (r: nat)
    ensures r < SeqModulus
  {
    (c + 1) % SeqModulus
  }

  /** The counter after `n` packets. */
  function SeqAfter(c: nat, n: nat): nat
  {
    if n == 0 then c else NextSeq(SeqAfter(c, n - 1))
  }

  /** `n` packets advance an in-range counter by `n`, modulo 2^16. */
  lemma {:induction false} SeqAfterIsSum(c: nat, n: nat)
    requires c < SeqModulus
    ensures SeqAfter(c, n) == (c + n) % SeqModulus
  {
    if n > 0 {
      SeqAfterIsSum(c, n - 1);
      ModSucc(c + n - 1);
    }
  }

  lemma ModSucc(x: nat)
    ensures (x % SeqModulus + 1) % SeqModulus == (x + 1) % SeqModulus
  {
    var q, r := x / SeqModulus, x % SeqModulus;
    assert x == q * SeqModulus + r;
    if r + 1 < SeqModulus {
      assert x + 1 == q * SeqModulus + (r + 1);
    } else {
      assert x + 1 == (q + 1) * SeqModulus;
    }
  }

  /** Two packets sent `d` apart carry the same sequence number exactly
      when `d` is a multiple of 2^16: any 65536 consecutive packets carry
      distinct numbers, and the 65537th reuses the first one's. */
  lemma SeqRepeats(c: nat, m: nat, n: nat)
    requires c < SeqModulus && m <= n
    ensures SeqAfter(c, m) == SeqAfter(c, n) <==> (n - m) % SeqModulus == 0
  {
    SeqAfterIsSum(c, m);
    SeqAfterIsSum(c, n);
    var a, d := c + m, n - m;
    assert a + d == c + n;
    ModShift(a, d);
  }

  lemma ModShift(a: nat, d: nat)
    ensures (a + d) % SeqModulus == a % SeqModulus <==> d % SeqModulus == 0
  {
    var qa, ra := a / SeqModulus, a % SeqModulus;
    var qd, rd := d / SeqModulus, d % SeqModulus;
    assert a + d == (qa + qd) * SeqModulus + (ra + rd);
    if ra + rd < SeqModulus {
      assert (a + d) % SeqModulus == ra + rd;
    } else {
      assert a + d == (qa + qd + 1) * SeqModulus + (ra + rd - SeqModulus);
      assert (a + d) % SeqModulus == ra + rd - SeqModulus;
    }
  }

  /** An entry of `pending_acks`: when the packet was last sent, the
      callback to tell the outcome, the resends left, and the packet. */
  datatype Pending = Pending(ts: real, cb: Option<HandlerId>, retry: int, pkt: Protocol.Packet)

  /** The entry has waited longer than the timeout. */
  predicate Expired(req: Pending, now: real)
  {
    now - req.ts > AckTimeout
  }

  /** An entry the sweep at `now` gives up on: expired, no resend left. */
  predicate Exhausted(req: Pending, now: real)
  {
    Expired(req, now) && req.retry <= 0
  }

  /** An entry the sweep at `now` resends: expired, a resend left. */
  predicate Resent(req: Pending, now: real)
  {
    Expired(req, now) && req.retry > 0
  }

  /** An entry after the sweep at `now`, when it is not given up on: a
      resent entry has one resend fewer and restarts its timeout. */
  function Swept(req: Pending, now: real): (r: Pending)
    ensures r.pkt == req.pkt && r.cb == req.cb
    ensures Resent(req, now) ==> r.retry == req.retry - 1 && r.ts == now && !Expired(r, now)
    ensures !Resent(req, now) ==> r == req
  {
    if Resent(req, now) then req.(retry := req.retry - 1, ts := now) else req
  }

  /** How an entry fares under a series of sweeps at the times `sweeps`
      (with no acknowledgement): how many times it is resent, and whether
      it is finally given up on. */
  function Fate(req: Pending, sweeps: seq<real>): (nat, bool)
    decreases |sweeps|
  {
    if sweeps == [] then (0, false)
    else if Exhausted(req, sweeps[0]) then (0, true)
    else
      var rest := Fate(Swept(req, sweeps[0]), sweeps[1..]);
      (if Resent(req, sweeps[0]) then rest.0 + 1 else rest.0, rest.1)
  }

  /** The retransmission budget: an entry is resent at most `retry` times,
      and it is given up on (its callback told `False`) only once all of
      them are spent. */
  lemma {:induction false} ResendBudget(req: Pending, sweeps: seq<real>)
    requires req.retry >= 0
    ensures Fate(req, sweeps).0 <= req.retry
    ensures Fate(req, sweeps).1 ==> Fate(req, sweeps).0 == req.retry
    decreases |sweeps|
  {
    if sweeps != [] && !Exhausted(req, sweeps[0]) {
      ResendBudget(Swept(req, sweeps[0]), sweeps[1..]);
    }
  }

  /** Hence a packet sent with `need_ack` goes out at most four times in all. */
  lemma FreshEntryBudget(ts: real, cb: Option<HandlerId>, pkt: Protocol.Packet, sweeps: seq<real>)
    ensures Fate(Pending(ts, cb, MaxRetries, pkt), sweeps).0 <= MaxRetries
    ensures Fate(Pending(ts, cb, MaxRetries, pkt), sweeps).1 ==>
      Fate(Pending(ts, cb, MaxRetries, pkt), sweeps).0 == MaxRetries
  {
    ResendBudget(Pending(ts, cb, MaxRetries, pkt), sweeps);
  }

  /** An entry of `pending_acks` under its sequence number. The table is a
      Python dict, so it is a sequence of entries in insertion order. */
  datatype Entry = Entry(seqNum: int, req: Pending)

  /** `pending_acks.get(k)`. Keys are unique in a table, so the last entry
      under `k` is the only one. */
  function Lookup(es: seq<Entry>, k: int): Option<Pending>
  {
    if es == [] then None
    else if es[|es| - 1].seqNum == k then Some(es[|es| - 1].req)
    else Lookup(es[..|es| - 1], k)
  }

  /** No key is stored twice. */
  predicate UniqueKeys(es: seq<Entry>)
  {
    es == [] ||
    (Lookup(es[..|es| - 1], es[|es| - 1].seqNum).None? && UniqueKeys(es[..|es| - 1]))
  }

  /** Every entry has between none and three resends left. */
  predicate RetriesInRange(es: seq<Entry>)
  {
    forall i | 0 <= i < |es| :: 0 <= es[i].req.retry <= MaxRetries
  }

  lemma LookupSnoc(es: seq<Entry>, e: Entry, k: int)
    ensures Lookup(es + [e], k) == if e.seqNum == k then Some(e.req) else Lookup(es, k)
  {
    assert (es + [e])[..|es|] == es;
  }

  lemma UniqueSnoc(es: seq<Entry>, e: Entry)
    ensures UniqueKeys(es + [e]) <==> Lookup(es, e.seqNum).None? && UniqueKeys(es)
  {
    assert (es + [e])[..|es|] == es;
  }

  /** `pending_acks.pop(k)`: the table without key `k`, the order of the
      others kept. */
  function Without(es: seq<Entry>, k: int): (r: seq<Entry>)
  {
    if es == [] then []
    else
      var last := es[|es| - 1];
      Without(es[..|es| - 1], k) + (if last.seqNum == k then [] else [last])
  }

  /** Popping `k` removes exactly `k`. */
  lemma {:induction false} LookupWithout(es: seq<Entry>, k: int, j: int)
    ensures Lookup(Without(es, k), j) == if j == k then None else Lookup(es, j)
  {
    if es != [] {
      var init, last := es[..|es| - 1], es[|es| - 1];
      assert es == init + [last];
      LookupWithout(init, k, j);
      LookupSnoc(init, last, j);
      if last.seqNum != k {
        LookupSnoc(Without(init, k), last, j);
      } else {
        assert Without(es, k) == Without(init, k);
      }
    }
  }

  /** Popping a key that is not there changes nothing. */
  lemma {:induction false} WithoutAbsent(es: seq<Entry>, k: int)
    requires Lookup(es, k).None?
    ensures Without(es, k) == es
  {
    if es != [] {
      var init, last := es[..|es| - 1], es[|es| - 1];
      assert es == init + [last];
      LookupSnoc(init, last, k);
      WithoutAbsent(init, k);
    }
  }

  /** Popping keeps the table a table. */
  lemma {:induction false} WithoutValid(es: seq<Entry>, k: int)
    requires UniqueKeys(es) && RetriesInRange(es)
    ensures UniqueKeys(Without(es, k)) && RetriesInRange(Without(es, k))
  {
    if es != [] {
      var init, last := es[..|es| - 1], es[|es| - 1];
      assert es == init + [last];
      UniqueSnoc(init, last);
      WithoutValid(init, k);
      if last.seqNum != k {
        LookupWithout(init, k, last.seqNum);
        UniqueSnoc(Without(init, k), last);
      } else {
        assert Without(es, k) == Without(init, k);
      }
    }
  }

  /** `es` with every entry under `k` holding `v`. */
  function Replace(es: seq<Entry>, k: int, v: Pending): (r: seq<Entry>)
    ensures |r| == |es|
    ensures forall i | 0 <= i < |es| :: r[i] == if es[i].seqNum == k then Entry(k, v) else es[i]
  {
    if es == [] then []
    else
      var last := es[|es| - 1];
      Replace(es[..|es| - 1], k, v) + [if last.seqNum == k then Entry(k, v) else last]
  }

  /** `pending_acks[k] = v`: a new key goes last, an existing key keeps its
      place and gets the new value. */
  function Put(es: seq<Entry>, k: int, v: Pending): seq<Entry>
  {
    if Lookup(es, k).None? then es + [Entry(k, v)] else Replace(es, k, v)
  }

  lemma {:induction false} LookupReplace(es: seq<Entry>, k: int, v: Pending, j: int)
    ensures Lookup(Replace(es, k, v), j) ==
      if j == k && Lookup(es, k).Some? then Some(v) else Lookup(es, j)
  {
    if es != [] {
      var init, last := es[..|es| - 1], es[|es| - 1];
      assert es == init + [last];
      LookupReplace(init, k, v, j);
      LookupSnoc(init, last, j);
      LookupSnoc(init, last, k);
      LookupSnoc(Replace(init, k, v), if last.seqNum == k then Entry(k, v) else last, j);
    }
  }

  lemma {:induction false} ReplaceUnique(es: seq<Entry>, k: int, v: Pending)
    requires UniqueKeys(es)
    ensures UniqueKeys(Replace(es, k, v))
  {
    if es != [] {
      var init, last := es[..|es| - 1], es[|es| - 1];
      assert es == init + [last];
      UniqueSnoc(init, last);
      ReplaceUnique(init, k, v);
      LookupReplace(init, k, v, last.seqNum);
      UniqueSnoc(Replace(init, k, v), if last.seqNum == k then Entry(k, v) else last);
    }
  }

  /** After `pending_acks[k] = v`, `k` holds `v` and every other key what
      it held before. */
  lemma LookupPut(es: seq<Entry>, k: int, v: Pending, j: int)
    ensures Lookup(Put(es, k, v), j) == if j == k then Some(v) else Lookup(es, j)
  {
    if Lookup(es, k).None? {
      LookupSnoc(es, Entry(k, v), j);
    } else {
      LookupReplace(es, k, v, j);
    }
  }

  /** Storing keeps the table a table. */
  lemma PutValid(es: seq<Entry>, k: int, v: Pending)
    requires UniqueKeys(es) && RetriesInRange(es) && 0 <= v.retry <= MaxRetries
    ensures UniqueKeys(Put(es, k, v)) && RetriesInRange(Put(es, k, v))
  {
    if Lookup(es, k).None? {
      UniqueSnoc(es, Entry(k, v));
    } else {
      ReplaceUnique(es, k, v);
    }
  }

  /** The table after the first pass of the sweep at `now`: every entry
      swept in place. */
  function Scanned(es: seq<Entry>, now: real): (r: seq<Entry>)
    ensures |r| == |es|
    ensures forall i | 0 <= i < |es| :: r[i] == Entry(es[i].seqNum, Swept(es[i].req, now))
  {
    if es == [] then []
    else
      var last := es[|es| - 1];
      Scanned(es[..|es| - 1], now) + [Entry(last.seqNum, Swept(last.req, now))]
  }

  /** The packets the sweep at `now` resends, in table order. */
  function Retries(es: seq<Entry>, now: real): seq<Protocol.Packet>
  {
    if es == [] then []
    else
      var last := es[|es| - 1];
      Retries(es[..|es| - 1], now) + (if Resent(last.req, now) then [last.req.pkt] else [])
  }

  /** The keys the sweep at `now` gives up on, in table order. */
  function Failures(es: seq<Entry>, now: real): seq<int>
  {
    if es == [] then []
    else
      var last := es[|es| - 1];
      Failures(es[..|es| - 1], now) + (if Exhausted(last.req, now) then [last.seqNum] else [])
  }

  /** The callbacks the sweep at `now` tells `False`, in table order. */
  function FailEvents(es: seq<Entry>, now: real): seq<Event>
  {
    if es == [] then []
    else
      var last := es[|es| - 1];
      FailEvents(es[..|es| - 1], now) +
        (if Exhausted(last.req, now) && last.req.cb.Some? then [AckDone(last.req.cb.value, false)] else [])
  }

  /** The table after the whole sweep at `now`: the entries not given up
      on, swept, in their order. */
  function Survivors(es: seq<Entry>, now: real): seq<Entry>
  {
    if es == [] then []
    else
      var last := es[|es| - 1];
      Survivors(es[..|es| - 1], now) +
        (if Exhausted(last.req, now) then [] else [Entry(last.seqNum, Swept(last.req, now))])
  }

  /** The table after popping each of `ks` in turn. */
  function RemoveAll(es: seq<Entry>, ks: seq<int>): seq<Entry>
  {
    if ks == [] then es else Without(RemoveAll(es, ks[..|ks| - 1]), ks[|ks| - 1])
  }

  /** The callbacks told `False` when the keys `ks` are popped from `es`. */
  function CallbacksOf(ks: seq<int>, es: seq<Entry>): seq<Event>
  {
    if ks == [] then []
    else
      var k := ks[|ks| - 1];
      CallbacksOf(ks[..|ks| - 1], es) +
        (if Lookup(es, k).Some? && Lookup(es, k).value.cb.Some?
         then [AckDone(Lookup(es, k).value.cb.value, false)] else [])
  }

  /** No key listed twice. */
  predicate Distinct(ks: seq<int>)
  {
    forall i, j | 0 <= i < j < |ks| :: ks[i] != ks[j]
  }

  /** A key given up on is a key of the table, with its entry exhausted. */
  lemma {:induction false} FailuresPresent(es: seq<Entry>, now: real, k: int)
    requires UniqueKeys(es) && k in Failures(es, now)
    ensures Lookup(es, k).Some? && Exhausted(Lookup(es, k).value, now)
  {
    var init, last := es[..|es| - 1], es[|es| - 1];
    assert es == init + [last];
    LookupSnoc(init, last, k);
    UniqueSnoc(init, last);
    if k != last.seqNum || !Exhausted(last.req, now) {
      assert Failures(es, now) == Failures(init, now) + (if Exhausted(last.req, now) then [last.seqNum] else []);
      FailuresPresent(init, now, k);
      if k == last.seqNum {
        assert false;
      }
    }
  }

  /** Conversely, every key of the table with an exhausted entry is given
      up on, and in a table no key is given up on twice. */
  lemma {:induction false} FailuresComplete(es: seq<Entry>, now: real, k: int)
    requires UniqueKeys(es) && Lookup(es, k).Some? && Exhausted(Lookup(es, k).value, now)
    ensures k in Failures(es, now)
  {
    var init, last := es[..|es| - 1], es[|es| - 1];
    assert es == init + [last];
    LookupSnoc(init, last, k);
    UniqueSnoc(init, last);
    if k != last.seqNum {
      FailuresComplete(init, now, k);
    }
  }

  lemma {:induction false} FailuresDistinct(es: seq<Entry>, now: real)
    requires UniqueKeys(es)
    ensures Distinct(Failures(es, now))
  {
    if es != [] {
      var init, last := es[..|es| - 1], es[|es| - 1];
      assert es == init + [last];
      UniqueSnoc(init, last);
      FailuresDistinct(init, now);
      if last.seqNum in Failures(init, now) {
        FailuresPresent(init, now, last.seqNum);
      }
    }
  }

  /** An entry is resent by the sweep or given up on by it exactly when it
      has expired, never both. */
  lemma {:induction false} SweepPartition(es: seq<Entry>, now: real)
    ensures |Retries(es, now)| + |Failures(es, now)| == ExpiredCount(es, now)
  {
    if es != [] {
      SweepPartition(es[..|es| - 1], now);
    }
  }

  /** How many entries of `es` have expired at `now`. */
  function ExpiredCount(es: seq<Entry>, now: real): nat
  {
    if es == [] then 0
    else ExpiredCount(es[..|es| - 1], now) + (if Expired(es[|es| - 1].req, now) then 1 else 0)
  }

  lemma LookupScanned(es: seq<Entry>, now: real, k: int)
    ensures Lookup(Scanned(es, now), k) ==
      if Lookup(es, k).Some? then Some(Swept(Lookup(es, k).value, now)) else None
  {
    if es != [] {
      var init, last := es[..|es| - 1], es[|es| - 1];
      assert es == init + [last];
      LookupSnoc(init, last, k);
      LookupScanned(init, now, k);
      LookupSnoc(Scanned(init, now), Entry(last.seqNum, Swept(last.req, now)), k);
    }
  }

  lemma LookupSurvivors(es: seq<Entry>, now: real, k: int)
    ensures Lookup(Survivors(es, now), k).Some? ==> Lookup(es, k).Some?
  {
    if es != [] {
      var init, last := es[..|es| - 1], es[|es| - 1];
      assert es == init + [last];
      LookupSnoc(init, last, k);
      LookupSurvivors(init, now, k);
      if Exhausted(last.req, now) {
        assert Survivors(es, now) == Survivors(init, now);
      } else {
        LookupSnoc(Survivors(init, now), Entry(last.seqNum, Swept(last.req, now)), k);
      }
    }
  }

  /** Key by key, the sweep at `now` drops an entry it gives up on and
      keeps any other, swept. */
  lemma {:induction false} SweepEntry(es: seq<Entry>, now: real, k: int)
    requires UniqueKeys(es)
    ensures Lookup(Survivors(es, now), k) ==
      if Lookup(es, k).None? || Exhausted(Lookup(es, k).value, now) then None
      else Some(Swept(Lookup(es, k).value, now))
  {
    if es != [] {
      var init, last := es[..|es| - 1], es[|es| - 1];
      assert es == init + [last];
      UniqueSnoc(init, last);
      LookupSnoc(init, last, k);
      SweepEntry(init, now, k);
      if Exhausted(last.req, now) {
        assert Survivors(es, now) == Survivors(init, now);
      } else {
        assert Survivors(es, now) == Survivors(init, now) + [Entry(last.seqNum, Swept(last.req, now))];
        LookupSnoc(Survivors(init, now), Entry(last.seqNum, Swept(last.req, now)), k);
      }
    }
  }

  /** The sweep's lists after one more entry of `es`. */
  lemma SweepStep(es: seq<Entry>, i: nat, now: real)
    requires i < |es|
    ensures Retries(es[..i + 1], now) ==
      Retries(es[..i], now) + (if Resent(es[i].req, now) then [es[i].req.pkt] else [])
    ensures Failures(es[..i + 1], now) ==
      Failures(es[..i], now) + (if Exhausted(es[i].req, now) then [es[i].seqNum] else [])
  {
    assert es[..i + 1][..i] == es[..i];
  }

  /** Popping from a table extended by an entry not popped. */
  lemma {:induction false} RemoveAllSnoc(es: seq<Entry>, e: Entry, ks: seq<int>)
    requires e.seqNum !in ks
    ensures RemoveAll(es + [e], ks) == RemoveAll(es, ks) + [e]
  {
    if ks != [] {
      var init := ks[..|ks| - 1];
      RemoveAllSnoc(es, e, init);
      var b := RemoveAll(es, init);
      assert (b + [e])[..|b|] == b;
    }
  }

  /** Popping keys the entries of which are not the new last one. */
  lemma {:induction false} CallbacksSnoc(ks: seq<int>, es: seq<Entry>, e: Entry)
    requires e.seqNum !in ks
    ensures CallbacksOf(ks, es + [e]) == CallbacksOf(ks, es)
  {
    if ks != [] {
      CallbacksSnoc(ks[..|ks| - 1], es, e);
      LookupSnoc(es, e, ks[|ks| - 1]);
    }
  }

  /** The second pass pops exactly the keys given up on: what is left is
      the survivors. */
  lemma {:induction false} SweepSurvivors(es: seq<Entry>, now: real)
    requires UniqueKeys(es)
    ensures RemoveAll(Scanned(es, now), Failures(es, now)) == Survivors(es, now)
  {
    if es != [] {
      var init, last := es[..|es| - 1], es[|es| - 1];
      assert es == init + [last];
      var k, se := last.seqNum, Entry(last.seqNum, Swept(last.req, now));
      var sc, f, sv := Scanned(init, now), Failures(init, now), Survivors(init, now);
      assert Scanned(es, now) == sc + [se];
      UniqueSnoc(init, last);
      SweepSurvivors(init, now);
      if k in f {
        FailuresPresent(init, now, k);
        assert false;
      }
      RemoveAllSnoc(sc, se, f);
      if Exhausted(last.req, now) {
        assert (f + [k])[..|f|] == f;
        assert (sv + [se])[..|sv|] == sv;
        LookupSurvivors(init, now, k);
        WithoutAbsent(sv, k);
        calc {
          RemoveAll(Scanned(es, now), Failures(es, now));
          RemoveAll(sc + [se], f + [k]);
          Without(RemoveAll(sc + [se], f), k);
          Without(sv + [se], k);
          Without(sv, k);
          sv;
          Survivors(es, now);
        }
      } else {
        assert Failures(es, now) == f + [] == f;
        calc {
          RemoveAll(Scanned(es, now), Failures(es, now));
          RemoveAll(sc + [se], f);
          sv + [se];
          Survivors(es, now);
        }
      }
    }
  }

  /** The second pass tells `False` to the callbacks of exactly the entries
      given up on, in table order. */
  lemma {:induction false} SweepCallbacks(es: seq<Entry>, now: real)
    requires UniqueKeys(es)
    ensures CallbacksOf(Failures(es, now), Scanned(es, now)) == FailEvents(es, now)
  {
    if es != [] {
      var init, last := es[..|es| - 1], es[|es| - 1];
      assert es == init + [last];
      var k, se := last.seqNum, Entry(last.seqNum, Swept(last.req, now));
      var sc, f := Scanned(init, now), Failures(init, now);
      assert Scanned(es, now) == sc + [se];
      UniqueSnoc(init, last);
      SweepCallbacks(init, now);
      if k in f {
        FailuresPresent(init, now, k);
        assert false;
      }
      CallbacksSnoc(f, sc, se);
      if Exhausted(last.req, now) {
        assert (f + [k])[..|f|] == f;
        LookupSnoc(sc, se, k);
        calc {
          CallbacksOf(Failures(es, now), Scanned(es, now));
          CallbacksOf(f + [k], sc + [se]);
          CallbacksOf(f, sc + [se]) +
            (if last.req.cb.Some? then [AckDone(last.req.cb.value, false)] else []);
          FailEvents(es, now);
        }
      } else {
        assert Failures(es, now) == f + [] == f;
        assert FailEvents(es, now) == FailEvents(init, now) + [] == FailEvents(init, now);
        calc {
          CallbacksOf(Failures(es, now), Scanned(es, now));
          CallbacksOf(f, sc + [se]);
          FailEvents(es, now);
        }
      }
    }
  }

  /** The sweep keeps the table a table. */
  lemma {:induction false} SurvivorsValid(es: seq<Entry>, now: real)
    requires UniqueKeys(es) && RetriesInRange(es)
    ensures UniqueKeys(Survivors(es, now)) && RetriesInRange(Survivors(es, now))
  {
    if es != [] {
      var init, last := es[..|es| - 1], es[|es| - 1];
      assert es == init + [last];
      UniqueSnoc(init, last);
      SurvivorsValid(init, now);
      if !Exhausted(last.req, now) {
        var se := Entry(last.seqNum, Swept(last.req, now));
        LookupSurvivors(init, now, last.seqNum);
        UniqueSnoc(Survivors(init, now), se);
        assert Survivors(es, now) == Survivors(init, now) + [se];
      } else {
        assert Survivors(es, now) == Survivors(init, now);
      }
    }
  }

  /** Popping keys not among `ks` leaves their entries alone. */
  lemma {:induction false} LookupRemoveAll(es: seq<Entry>, ks: seq<int>, k: int)
    requires k !in ks
    ensures Lookup(RemoveAll(es, ks), k) == Lookup(es, k)
  {
    if ks != [] {
      LookupRemoveAll(es, ks[..|ks| - 1], k);
      LookupWithout(RemoveAll(es, ks[..|ks| - 1]), ks[|ks| - 1], k);
    }
  }

  /** Each handler of `hs`, in order, called with `p`. */
  function HandlerCalls(hs: seq<HandlerId>, p: Protocol.Packet): (r: seq<Event>)
    ensures |r| == |hs|
    ensures forall i | 0 <= i < |hs| :: r[i] == Handled(hs[i], p)
  {
    if hs == [] then [] else HandlerCalls(hs[..|hs| - 1], p) + [Handled(hs[|hs| - 1], p)]
  }

  class Dispatcher {
    const serial: Transport.SerialInterface
    var handlers: map<Protocol.MsgType, HandlerId>
    var telemetryHandlers: seq<HandlerId>
    /** `pending_acks`, in insertion order. */
    var pending: seq<Entry>
    var seqCounter: nat
    var running: bool
    var lastHeartbeat: real
    var watchdogCallback: Option<HandlerId>
    /** The calls made into handlers and callbacks, in order. */
    var events: seq<Event>

    /** The counter is a 16-bit value, `pending_acks` holds each key once,
        and no entry has a negative or more than three resends left. */
    ghost predicate Valid()
      reads this
    {
      seqCounter < SeqModulus && UniqueKeys(pending) && RetriesInRange(pending)
    }

    /** `__init__`: registers `_on_packet_received` as the serial
        interface's callback; the maintenance thread is `Maintain`. */
    constructor (serial: Transport.SerialInterface, now: real)
      modifies serial`hasCallback
      ensures Valid()
      ensures this.serial == serial && serial.hasCallback
      ensures handlers == map[] && telemetryHandlers == [] && pending == []
      ensures seqCounter == 0 && running && lastHeartbeat == now && watchdogCallback == None && events == []
    {
      this.serial := serial;
      handlers := map[];
      telemetryHandlers := [];
      pending := [];
      seqCounter := 0;
      running := true;
      lastHeartbeat := now;
      watchdogCallback := None;
      events := [];
      new;
      serial.SetCallback();
    }

    method RegisterHandler(t: Protocol.MsgType, h: HandlerId)
      modifies this`handlers
      ensures handlers == old(handlers)[t := h]
    {
      handlers := handlers[t := h];
    }

    method RegisterTelemetryHandler(h: HandlerId)
      modifies this`telemetryHandlers
      ensures telemetryHandlers == old(telemetryHandlers) + [h]
    {
      telemetryHandlers := telemetryHandlers + [h];
    }

    method SetWatchdogCallback(cb: HandlerId)
      modifies this`watchdogCallback
      ensures watchdogCallback == Some(cb)
    {
      watchdogCallback := Some(cb);
    }

    /** `_next_seq`. */
    method NextSequence() returns (s: nat)
      requires Valid()
      modifies this`seqCounter
      ensures Valid()
      ensures s == seqCounter == NextSeq(old(seqCounter))
    {
      seqCounter := NextSeq(seqCounter);
      s := seqCounter;
    }

    /** `send`: the packet gets the next sequence number and joins the
        serial interface's queue; with `needAck` it is also entered in
        `pending_acks` with three resends. A key already pending (the
        counter has wrapped) is overwritten and keeps its place. */
    method Send(now: real, t: Protocol.MsgType, payload: seq<Byte>, needAck: bool, cb: Option<HandlerId>)
      returns (s: nat)
      requires Valid()
      modifies this`seqCounter, this`pending, serial`txQueue
      ensures Valid()
      ensures s == seqCounter == NextSeq(old(seqCounter))
      ensures serial.txQueue == old(serial.txQueue) + [Protocol.Packet(t, payload, s, 0)]
      ensures needAck ==> pending == Put(old(pending), s, Pending(now, cb, MaxRetries, Protocol.Packet(t, payload, s, 0)))
      ensures !needAck ==> pending == old(pending)
    {
      s := NextSequence();
      var packet := Protocol.Packet(t, payload, s, 0);
      if needAck {
        PutValid(pending, s, Pending(now, cb, MaxRetries, packet));
        pending := Put(pending, s, Pending(now, cb, MaxRetries, packet));
      }
      serial.Send(packet);
    }

    /** `_handle_ack`: an acknowledgement names the sequence number it
        confirms in its first two payload bytes; a pending entry for it is
        removed and its callback told `True`. Anything else is ignored. */
    method HandleAck(p: Protocol.Packet)
      requires Valid()
      modifies this`pending, this`events
      ensures Valid()
      ensures |p.payload| < 2 ==> pending == old(pending) && events == old(events)
      ensures |p.payload| >= 2 ==>
        var acked := ReadLe16(p.payload, 0);
        var req := Lookup(old(pending), acked);
        && pending == Without(old(pending), acked)
        && events == old(events) +
             (if req.Some? && req.value.cb.Some? then [AckDone(req.value.cb.value, true)] else [])
    {
      if |p.payload| >= 2 {
        var acked := ReadLe16(p.payload, 0);
        var req := Lookup(pending, acked);
        if req.Some? {
          WithoutValid(pending, acked);
          pending := Without(pending, acked);
          if req.value.cb.Some? {
            events := events + [AckDone(req.value.cb.value, true)];
          }
        } else {
          WithoutAbsent(pending, acked);
        }
      }
    }

    /** The telemetry handlers, in registration order, each called with `p`. */
    method NotifyTelemetry(p: Protocol.Packet)
      modifies this`events
      ensures events == old(events) + HandlerCalls(telemetryHandlers, p)
    {
      var i := 0;
      while i < |telemetryHandlers|
        invariant 0 <= i <= |telemetryHandlers|
        invariant events == old(events) + HandlerCalls(telemetryHandlers[..i], p)
      {
        assert telemetryHandlers[..i + 1][..i] == telemetryHandlers[..i];
        events := events + [Handled(telemetryHandlers[i], p)];
        i := i + 1;
      }
      assert telemetryHandlers[..i] == telemetryHandlers;
    }

    /** `_on_packet_received`: any packet counts as a heartbeat. An
        acknowledgement is consumed by `HandleAck` and reaches no handler;
        telemetry goes to every telemetry handler; any other type goes to
        its registered handler, or nowhere. */
    method OnPacketReceived(p: Protocol.Packet, now: real)
      requires Valid()
      modifies this`lastHeartbeat, this`pending, this`events
      ensures Valid()
      ensures lastHeartbeat == now
      ensures p.msgType == Protocol.Ack ==> |p.payload| < 2 ==> pending == old(pending) && events == old(events)
      ensures p.msgType == Protocol.Ack ==> |p.payload| >= 2 ==>
        var acked := ReadLe16(p.payload, 0);
        var req := Lookup(old(pending), acked);
        && pending == Without(old(pending), acked)
        && events == old(events) +
             (if req.Some? && req.value.cb.Some? then [AckDone(req.value.cb.value, true)] else [])
      ensures p.msgType != Protocol.Ack ==> pending == old(pending)
      ensures p.msgType == Protocol.Telemetry ==> events == old(events) + HandlerCalls(telemetryHandlers, p)
      ensures p.msgType != Protocol.Ack && p.msgType != Protocol.Telemetry ==>
        events == old(events) + (if p.msgType in handlers then [Handled(handlers[p.msgType], p)] else [])
    {
      lastHeartbeat := now;
      if p.msgType == Protocol.Ack {
        HandleAck(p);
        return;
      }
      if p.msgType == Protocol.Telemetry {
        NotifyTelemetry(p);
      } else if p.msgType in handlers {
        events := events + [Handled(handlers[p.msgType], p)];
      }
    }

    /** The first pass of `_maintenance_loop` over a snapshot of
        `pending_acks`: each expired entry with a resend left is updated in
        place and its packet queued for resending; each expired entry with
        none left is marked to be given up on. */
    method ScanPending(now: real) returns (toRetry: seq<Protocol.Packet>, toFail: seq<int>)
      modifies this`pending
      ensures pending == Scanned(old(pending), now)
      ensures toRetry == Retries(old(pending), now)
      ensures toFail == Failures(old(pending), now)
    {
      ghost var p0 := pending;
      toRetry, toFail := [], [];
      var i := 0;
      while i < |pending|
        invariant 0 <= i <= |pending| == |p0|
        invariant forall j | 0 <= j < |p0| ::
          pending[j] == if j < i then Entry(p0[j].seqNum, Swept(p0[j].req, now)) else p0[j]
        invariant toRetry == Retries(p0[..i], now)
        invariant toFail == Failures(p0[..i], now)
      {
        var e := pending[i];
        SweepStep(p0, i, now);
        if Expired(e.req, now) {
          if e.req.retry > 0 {
            pending := pending[i := Entry(e.seqNum, e.req.(retry := e.req.retry - 1, ts := now))];
            toRetry := toRetry + [e.req.pkt];
          } else {
            toFail := toFail + [e.seqNum];
          }
        }
        i := i + 1;
      }
      assert p0[..i] == p0;
    }

    /** The second pass: every entry given up on is popped and its
        callback, if any, told `False`, in order. */
    method FailPending(toFail: seq<int>)
      requires Distinct(toFail)
      requires forall i | 0 <= i < |toFail| :: Lookup(pending, toFail[i]).Some?
      modifies this`pending, this`events
      ensures pending == RemoveAll(old(pending), toFail)
      ensures events == old(events) + CallbacksOf(toFail, old(pending))
    {
      ghost var p0, e0 := pending, events;
      var i := 0;
      while i < |toFail|
        invariant 0 <= i <= |toFail|
        invariant pending == RemoveAll(p0, toFail[..i])
        invariant events == e0 + CallbacksOf(toFail[..i], p0)
      {
        var k := toFail[i];
        assert toFail[..i + 1][..i] == toFail[..i];
        LookupRemoveAll(p0, toFail[..i], k);
        var req := Lookup(pending, k).value;
        pending := Without(pending, k);
        if req.cb.Some? {
          events := events + [AckDone(req.cb.value, false)];
        }
        i := i + 1;
      }
      assert toFail[..i] == toFail;
    }

    /** The third pass: the packets to resend join the serial interface's
        queue, in order. */
    method Resend(toRetry: seq<Protocol.Packet>)
      modifies serial`txQueue
      ensures serial.txQueue == old(serial.txQueue) + toRetry
    {
      var i := 0;
      while i < |toRetry|
        invariant 0 <= i <= |toRetry|
        invariant serial.txQueue == old(serial.txQueue) + toRetry[..i]
      {
        serial.Send(toRetry[i]);
        assert toRetry[..i + 1] == toRetry[..i] + [toRetry[i]];
        i := i + 1;
      }
      assert toRetry[..i] == toRetry;
    }

    /** The watchdog check: level-triggered, so it fires on every pass
        while the link stays silent, not only on the first. */
    method CheckWatchdog(now: real)
      modifies this`events
      ensures events == old(events) +
        (if now - lastHeartbeat > WatchdogTimeout && watchdogCallback.Some?
         then [WatchdogFired(watchdogCallback.value)] else [])
    {
      if now - lastHeartbeat > WatchdogTimeout {
        if watchdogCallback.Some? {
          events := events + [WatchdogFired(watchdogCallback.value)];
        }
      }
    }

    /** One pass of `_maintenance_loop` at time `now`. */
    method Maintain(now: real)
      requires Valid()
      modifies this`pending, this`events, serial`txQueue
      ensures Valid()
      ensures pending == Survivors(old(pending), now)
      ensures serial.txQueue == old(serial.txQueue) + Retries(old(pending), now)
      ensures events == old(events) + FailEvents(old(pending), now)
        + (if now - lastHeartbeat > WatchdogTimeout && watchdogCallback.Some?
           then [WatchdogFired(watchdogCallback.value)] else [])
    {
      ghost var p0 := pending;
      var toRetry, toFail := ScanPending(now);
      FailuresDistinct(p0, now);
      forall i | 0 <= i < |toFail|
        ensures Lookup(pending, toFail[i]).Some?
      {
        FailuresPresent(p0, now, toFail[i]);
        LookupScanned(p0, now, toFail[i]);
      }
      FailPending(toFail);
      SweepSurvivors(p0, now);
      SweepCallbacks(p0, now);
      SurvivorsValid(p0, now);
      Resend(toRetry);
      CheckWatchdog(now);
    }
  }
}
