/** Consistent Overhead Byte Stuffing as app/core/protocol.py implements it:
    `cobs_encode` and the decoder `_cobs_decode_simple`, to which
    `cobs_decode` delegates. */
module Cobs {
  import opened Common

  /** A block is closed when its code reaches 0xFF: 254 data bytes. */
  const MaxRun: nat := 254

  /** The encoding, specified block by block. `run` holds the non-zero bytes
      of the block still open, whose code byte has not been written yet. */
  function EncodeFrom(rest: seq<Byte>, run: seq<Byte>): seq<Byte>
    requires |run| < MaxRun
    decreases |rest|
  {
    if rest == [] then
      [|run| + 1] + run
    else if rest[0] == 0 then
      [|run| + 1] + run + EncodeFrom(rest[1..], [])
    else if |run| + 1 == MaxRun then
      [0xFF] + (run + [rest[0]]) + EncodeFrom(rest[1..], [])
    else
      EncodeFrom(rest[1..], run + [rest[0]])
  }

  function Encode(data: seq<Byte>): seq<Byte>
  {
    EncodeFrom(data, [])
  }

  /** The state of `cobs_encode`'s loop after `i` input bytes: `out` holds the
      closed blocks, the placeholder at `codeIdx` and the open block's bytes. */
  ghost predicate Encoding(data: seq<Byte>, i: nat, out: seq<Byte>, codeIdx: nat)
  {
    i <= |data| && codeIdx < |out| && |out| - codeIdx <= MaxRun
    && out[..codeIdx] + EncodeFrom(data[i..], out[codeIdx + 1..]) == Encode(data)
  }

  /** Back-patching the placeholder with `code` and opening a new one. */
  function Close(out: seq<Byte>, codeIdx: nat, code: Byte): seq<Byte>
    requires codeIdx < |out|
  {
    out[codeIdx := code] + [0]
  }

  /** A zero byte closes the open block with code `|run| + 1`. */
  lemma EncodeStepZero(data: seq<Byte>, i: nat, out: seq<Byte>, codeIdx: nat)
    requires Encoding(data, i, out, codeIdx) && i < |data| && data[i] == 0
    ensures Encoding(data, i + 1, Close(out, codeIdx, |out| - codeIdx), |out|)
  {
    var rest := data[i..];
    assert rest[1..] == data[i + 1..];
    var run := out[codeIdx + 1..];
    var next := Close(out, codeIdx, |out| - codeIdx);
    assert next[..|out|] == out[..codeIdx] + [|run| + 1] + run;
    assert next[|out| + 1..] == [];
  }

  /** The 254th non-zero byte closes the open block with code 0xFF. */
  lemma EncodeStepFull(data: seq<Byte>, i: nat, out: seq<Byte>, codeIdx: nat)
    requires Encoding(data, i, out, codeIdx) && i < |data| && data[i] != 0
    requires |out| - codeIdx == MaxRun
    ensures Encoding(data, i + 1, Close(out + [data[i]], codeIdx, 0xFF), |out| + 1)
  {
    var rest := data[i..];
    assert rest[1..] == data[i + 1..];
    var run := out[codeIdx + 1..];
    var grown := out + [data[i]];
    assert grown[codeIdx + 1..] == run + [rest[0]];
    var next := Close(grown, codeIdx, 0xFF);
    assert next[..|grown|] == out[..codeIdx] + [0xFF] + (run + [rest[0]]);
    assert next[|grown| + 1..] == [];
  }

  /** Any other non-zero byte joins the open block. */
  lemma EncodeStepByte(data: seq<Byte>, i: nat, out: seq<Byte>, codeIdx: nat)
    requires Encoding(data, i, out, codeIdx) && i < |data| && data[i] != 0
    requires |out| - codeIdx < MaxRun
    ensures Encoding(data, i + 1, out + [data[i]], codeIdx)
  {
    var rest := data[i..];
    assert rest[1..] == data[i + 1..];
    var grown := out + [data[i]];
    assert grown[codeIdx + 1..] == out[codeIdx + 1..] + [rest[0]];
    assert grown[..codeIdx] == out[..codeIdx];
  }

  /** At the end of the input the last placeholder receives its code. */
  lemma EncodeFinish(data: seq<Byte>, out: seq<Byte>, codeIdx: nat)
    requires Encoding(data, |data|, out, codeIdx)
    ensures out[codeIdx := |out| - codeIdx] == Encode(data)
  {
    assert data[|data|..] == [];
    var run := out[codeIdx + 1..];
    assert out[codeIdx := |out| - codeIdx] == out[..codeIdx] + [|run| + 1] + run;
  }

  /** `cobs_encode`: the output buffer starts with a placeholder, grows byte by
      byte, and the placeholder of each block is back-patched with its code. */
  method CobsEncode(data: seq<Byte>) returns (out: seq<Byte>)
    ensures out == Encode(data)
    ensures NoZero(out)
  {
    out := [0];
    var codeIdx: nat := 0;
    var code := 1;
    var i: nat := 0;
    assert data[0..] == data;
    while i < |data|
      invariant Encoding(data, i, out, codeIdx)
      invariant code == |out| - codeIdx && code >= 1
    {
      var byte := data[i];
      if byte == 0 {
        EncodeStepZero(data, i, out, codeIdx);
        out := out[codeIdx := code];
        code := 1;
        codeIdx := |out|;
        out := out + [0];
      } else {
        if code + 1 == 0xFF {
          EncodeStepFull(data, i, out, codeIdx);
        } else {
          EncodeStepByte(data, i, out, codeIdx);
        }
        out := out + [byte];
        code := code + 1;
        if code == 0xFF {
          out := out[codeIdx := code];
          code := 1;
          codeIdx := |out|;
          out := out + [0];
        }
      }
      i := i + 1;
    }
    EncodeFinish(data, out, codeIdx);
    out := out[codeIdx := code];
    EncodeNoZero(data);
  }

  /** The encoded frame never contains 0x00: every code lies in 1..0xFF and
      every data byte copied out is non-zero. */
  lemma {:induction false} EncodeFromNoZero(rest: seq<Byte>, run: seq<Byte>)
    requires |run| < MaxRun && NoZero(run)
    ensures NoZero(EncodeFrom(rest, run))
    decreases |rest|
  {
    if rest == [] {
    } else if rest[0] == 0 {
      EncodeFromNoZero(rest[1..], []);
    } else if |run| + 1 == MaxRun {
      EncodeFromNoZero(rest[1..], []);
    } else {
      EncodeFromNoZero(rest[1..], run + [rest[0]]);
    }
  }

  lemma EncodeNoZero(data: seq<Byte>)
    ensures NoZero(Encode(data))
  {
    EncodeFromNoZero(data, []);
  }

  /** How many times the code of the open block reaches 0xFF while encoding
      `rest` after a run of `run` non-zero bytes: once for every 254
      consecutive non-zero bytes, the count starting over at each zero. */
  function FullBlocks(rest: seq<Byte>, run: nat): nat
    decreases |rest|
  {
    if rest == [] then 0
    else if rest[0] == 0 then FullBlocks(rest[1..], 0)
    else if run + 1 == MaxRun then 1 + FullBlocks(rest[1..], 0)
    else FullBlocks(rest[1..], run + 1)
  }

  lemma {:induction false} EncodeFromLength(rest: seq<Byte>, run: seq<Byte>)
    requires |run| < MaxRun
    ensures |EncodeFrom(rest, run)| == |run| + |rest| + 1 + FullBlocks(rest, |run|)
    decreases |rest|
  {
    if rest == [] {
    } else if rest[0] == 0 {
      EncodeFromLength(rest[1..], []);
    } else if |run| + 1 == MaxRun {
      EncodeFromLength(rest[1..], []);
    } else {
      EncodeFromLength(rest[1..], run + [rest[0]]);
    }
  }

  /** One byte of overhead, plus one for every time a block filled up. */
  lemma EncodeLength(data: seq<Byte>)
    ensures |Encode(data)| == |data| + 1 + FullBlocks(data, 0)
  {
    EncodeFromLength(data, []);
  }

  lemma {:induction false} FullBlocksBound(rest: seq<Byte>, run: nat)
    ensures FullBlocks(rest, run) * MaxRun <= run + |rest|
    decreases |rest|
  {
    if rest != [] {
      if rest[0] == 0 || run + 1 == MaxRun {
        FullBlocksBound(rest[1..], 0);
      } else {
        FullBlocksBound(rest[1..], run + 1);
      }
    }
  }

  /** The overhead is at most one byte per 254 input bytes, beyond the first. */
  lemma EncodeLengthBound(data: seq<Byte>)
    ensures |data| + 1 <= |Encode(data)| <= |data| + 1 + |data| / MaxRun
  {
    EncodeLength(data);
    FullBlocksBound(data, 0);
  }

  /** `x` holds 254 consecutive non-zero bytes somewhere. */
  ghost predicate HasLongRun(x: seq<Byte>)
  {
    exists i :: LongRunAt(x, i)
  }

  predicate LongRunAt(x: seq<Byte>, i: int)
  {
    0 <= i && i + MaxRun <= |x| && NoZero(x[i..i + MaxRun])
  }

  /** A window of 254 non-zero bytes stays one when bytes are put in front. */
  lemma LongRunAfter(x: seq<Byte>, y: seq<Byte>, i: int)
    requires LongRunAt(y, i)
    ensures LongRunAt(x + y, |x| + i)
  {
    var a := |x| + i;
    var window, original := (x + y)[a..a + MaxRun], y[i..i + MaxRun];
    assert forall k | 0 <= k < MaxRun :: window[k] == original[k];
    assert window == original;
  }

  /** A long run after a zero byte is a long run of the whole. */
  lemma LongRunPastZero(run: seq<Byte>, rest: seq<Byte>)
    requires rest != [] && HasLongRun(rest[1..])
    ensures HasLongRun(run + rest)
  {
    var i :| LongRunAt(rest[1..], i);
    LongRunAfter(run + [rest[0]], rest[1..], i);
    assert (run + [rest[0]]) + rest[1..] == run + rest;
  }

  /** A run of 253 non-zero bytes followed by one more is a long run. */
  lemma LongRunAtStart(run: seq<Byte>, rest: seq<Byte>)
    requires |run| + 1 == MaxRun && NoZero(run) && rest != [] && rest[0] != 0
    ensures HasLongRun(run + rest)
  {
    assert (run + rest)[0..MaxRun] == run + [rest[0]];
    assert LongRunAt(run + rest, 0);
  }

  /** A block fills up only where the input has 254 consecutive non-zero bytes. */
  lemma {:induction false} FullBlockNeedsLongRun(run: seq<Byte>, rest: seq<Byte>)
    requires |run| < MaxRun && NoZero(run)
    ensures FullBlocks(rest, |run|) > 0 ==> HasLongRun(run + rest)
    decreases |rest|
  {
    if rest != [] {
      if rest[0] == 0 {
        FullBlockNeedsLongRun([], rest[1..]);
        assert [] + rest[1..] == rest[1..];
        if FullBlocks(rest[1..], 0) > 0 {
          LongRunPastZero(run, rest);
        }
      } else if |run| + 1 == MaxRun {
        LongRunAtStart(run, rest);
      } else {
        FullBlockNeedsLongRun(run + [rest[0]], rest[1..]);
        assert (run + [rest[0]]) + rest[1..] == run + rest;
      }
    }
  }

  /** Without a run of 254 non-zero bytes the overhead is exactly one byte. */
  lemma EncodeLengthShortRuns(data: seq<Byte>)
    requires !HasLongRun(data)
    ensures |Encode(data)| == |data| + 1
  {
    assert [] + data == data;
    FullBlockNeedsLongRun([], data);
    EncodeLength(data);
  }

  /** `_cobs_decode_simple` from position `i` on, specified block by block.
      A code byte 0x00 ends decoding; a block whose code points past the end
      keeps only the bytes present; a block with a code below 0xFF restores a
      zero unless it is the last thing in the input. */
  function DecodeFrom(data: seq<Byte>, i: nat): seq<Byte>
    decreases |data| - i
  {
    if i >= |data| || data[i] == 0 then []
    else
      var next := Min(i + data[i], |data|);
      data[i + 1..next] + (if data[i] < 0xFF && next < |data| then [0] else []) + DecodeFrom(data, next)
  }

  function Decode(data: seq<Byte>): seq<Byte>
  {
    DecodeFrom(data, 0)
  }

  /** The decoder is total and strictly shrinks a non-empty input: each
      block's code byte yields at most the one zero it stands for. */
  lemma {:induction false} DecodeFromShorter(data: seq<Byte>, i: nat)
    ensures i < |data| ==> |DecodeFrom(data, i)| < |data| - i
    ensures i >= |data| ==> DecodeFrom(data, i) == []
    decreases |data| - i
  {
    if i < |data| && data[i] != 0 {
      DecodeFromShorter(data, Min(i + data[i], |data|));
    }
  }

  lemma DecodeShorter(data: seq<Byte>)
    ensures data != [] ==> |Decode(data)| < |data|
    ensures data == [] ==> Decode(data) == []
  {
    DecodeFromShorter(data, 0);
  }

  /** One pass of the decoding loop: the block at `at` contributes `chunk` and `zero`. */
  lemma DecodeStep(data: seq<Byte>, at: nat, acc: seq<Byte>, chunk: seq<Byte>, zero: seq<Byte>, next: nat)
    requires at < |data| && data[at] != 0
    requires next == Min(at + data[at], |data|)
    requires chunk == data[at + 1..next]
    requires zero == (if data[at] < 0xFF && next < |data| then [0] else [])
    ensures acc + chunk + zero + DecodeFrom(data, next) == acc + DecodeFrom(data, at)
  {
  }

  /** The while loop of `_cobs_decode_simple`, proved to compute `Decode`. */
  method CobsDecodeSimple(data: seq<Byte>) returns (res: seq<Byte>)
    ensures res == Decode(data)
  {
    res := [];
    var i := 0;
    while i < |data|
      invariant 0 <= i <= |data|
      invariant res + DecodeFrom(data, i) == Decode(data)
    {
      var code := data[i];
      ghost var at := i;
      ghost var before := res;
      i := i + 1;
      if code == 0 {
        break;
      }
      var chunk := data[i..Min(i + code - 1, |data|)];
      res := res + chunk;
      i := i + |chunk|;
      ghost var zero: seq<Byte> := [];
      if code < 0xFF && i < |data| {
        res := res + [0];
        zero := [0];
      }
      DecodeStep(data, at, before, chunk, zero, i);
    }
  }

  /** `cobs_decode` returns what `_cobs_decode_simple` returns. */
  method CobsDecode(data: seq<Byte>) returns (res: seq<Byte>)
    ensures res == Decode(data)
    ensures data != [] ==> |res| < |data|
  {
    res := CobsDecodeSimple(data);
    DecodeShorter(data);
  }

  /** A block whose code points beyond the input yields just the bytes present. */
  lemma DecodeTruncatedBlock(code: Byte, tail: seq<Byte>)
    requires code != 0 && |tail| < code - 1
    ensures Decode([code] + tail) == tail
  {
    var d := [code] + tail;
    assert d[1..|d|] == tail;
    assert DecodeFrom(d, |d|) == [];
  }

  /** Decoding stops at a zero in code position, whatever follows. */
  lemma DecodeStopsAtZeroCode(tail: seq<Byte>)
    ensures Decode([0] + tail) == []
  {
  }

  /** One block of `DecodeFrom`, unfolded. */
  lemma DecodeFromBlock(d: seq<Byte>, i: nat, next: nat, chunk: seq<Byte>, zero: seq<Byte>)
    requires i < |d| && d[i] != 0
    requires next == Min(i + d[i], |d|)
    requires chunk == d[i + 1..next]
    requires zero == (if d[i] < 0xFF && next < |d| then [0] else [])
    ensures DecodeFrom(d, i) == chunk + zero + DecodeFrom(d, next)
  {
  }

  /** Decoding from inside a buffer ignores what lies before. */
  lemma {:induction false} DecodeFromShift(x: seq<Byte>, y: seq<Byte>, k: nat)
    ensures DecodeFrom(x + y, |x| + k) == DecodeFrom(y, k)
    decreases |y| - k
  {
    var xy := x + y;
    var a := |x| + k;
    if k < |y| && y[k] != 0 {
      var next := Min(k + y[k], |y|);
      var chunk := y[k + 1..next];
      var zero: seq<Byte> := if y[k] < 0xFF && next < |y| then [0] else [];
      assert xy[a] == y[k];
      assert xy[a + 1..|x| + next] == chunk;
      calc {
        DecodeFrom(xy, a);
        { DecodeFromBlock(xy, a, |x| + next, chunk, zero); }
        chunk + zero + DecodeFrom(xy, |x| + next);
        { DecodeFromShift(x, y, next); }
        chunk + zero + DecodeFrom(y, next);
        { DecodeFromBlock(y, k, next, chunk, zero); }
        DecodeFrom(y, k);
      }
    } else {
      assert a >= |xy| || xy[a] == 0;
    }
  }

  /** Decoding one complete block: its bytes, then the zero it stands for
      unless it has the maximal code or ends the input. */
  lemma DecodeBlock(code: Byte, chunk: seq<Byte>, tail: seq<Byte>)
    requires code != 0 && |chunk| == code - 1
    ensures Decode([code] + chunk + tail) == chunk + (if code < 0xFF && tail != [] then [0] else []) + Decode(tail)
  {
    var d := [code] + chunk + tail;
    assert d[1..code] == chunk;
    assert d == ([code] + chunk) + tail;
    DecodeFromShift([code] + chunk, tail, 0);
  }

  lemma {:induction false} DecodeEncodeFrom(rest: seq<Byte>, run: seq<Byte>)
    requires |run| < MaxRun
    ensures Decode(EncodeFrom(rest, run)) == run + rest
    decreases |rest|
  {
    if rest == [] {
      DecodeBlock(|run| + 1, run, []);
      assert [|run| + 1] + run + [] == EncodeFrom(rest, run);
    } else if rest[0] == 0 {
      DecodeEncodeFrom(rest[1..], []);
      EncodeFromZero(rest, run);
      EncodeFromNotEmpty(rest[1..], []);
      DecodeAfterZero(rest, run, EncodeFrom(rest[1..], []));
    } else if |run| + 1 == MaxRun {
      DecodeEncodeFrom(rest[1..], []);
      EncodeFromFull(rest, run);
      DecodeAfterFullBlock(rest, run, EncodeFrom(rest[1..], []));
    } else {
      DecodeEncodeFrom(rest[1..], run + [rest[0]]);
      assert EncodeFrom(rest, run) == EncodeFrom(rest[1..], run + [rest[0]]);
      assert (run + [rest[0]]) + rest[1..] == run + rest;
    }
  }

  lemma EncodeFromNotEmpty(rest: seq<Byte>, run: seq<Byte>)
    requires |run| < MaxRun
    ensures EncodeFrom(rest, run) != []
  {
    EncodeFromLength(rest, run);
  }

  /** The block closed by a zero byte, as `EncodeFrom` lays it out. */
  lemma EncodeFromZero(rest: seq<Byte>, run: seq<Byte>)
    requires |run| < MaxRun && rest != [] && rest[0] == 0
    ensures EncodeFrom(rest, run) == [|run| + 1] + run + EncodeFrom(rest[1..], [])
  {
  }

  /** The block closed by the 254th non-zero byte, as `EncodeFrom` lays it out. */
  lemma EncodeFromFull(rest: seq<Byte>, run: seq<Byte>)
    requires |run| + 1 == MaxRun && rest != [] && rest[0] != 0
    ensures EncodeFrom(rest, run) == [0xFF] + (run + [rest[0]]) + EncodeFrom(rest[1..], [])
  {
  }

  lemma DecodeAfterZero(rest: seq<Byte>, run: seq<Byte>, t: seq<Byte>)
    requires |run| < MaxRun && rest != [] && rest[0] == 0 && t != []
    requires Decode(t) == rest[1..]
    ensures Decode([|run| + 1] + run + t) == run + rest
  {
    DecodeBlock(|run| + 1, run, t);
    assert run + [0] + rest[1..] == run + rest;
  }

  lemma DecodeAfterFullBlock(rest: seq<Byte>, run: seq<Byte>, t: seq<Byte>)
    requires |run| + 1 == MaxRun && rest != []
    requires Decode(t) == rest[1..]
    ensures Decode([0xFF] + (run + [rest[0]]) + t) == run + rest
  {
    var chunk := run + [rest[0]];
    DecodeBlock(0xFF, chunk, t);
    assert chunk + [] + rest[1..] == run + rest;
  }

  /** Decoding undoes encoding, for every input: empty, all zeros, and runs
      on either side of the 254-byte block limit alike. */
  lemma DecodeEncode(data: seq<Byte>)
    ensures Decode(Encode(data)) == data
  {
    DecodeEncodeFrom(data, []);
    assert [] + data == data;
  }
}
