/**
 Waiting for the approval prompt on a terminal stream: the reader keeps only the last few
 bytes between reads, and must behave as if it searched everything it has read.
 */
module PromptSearch {
  import opened Prelude

  const APPROVAL_PROMPT: seq<u8> := Bytes("Allow and remember?")
  const MAX_APPROVAL_PTY_BYTES := 2 * 1024 * 1024

  function Bytes(text: string): (b: seq<u8>)
    requires forall i :: 0 <= i < |text| ==> text[i] < 128 as char
    ensures |b| == |text|
  {
    seq(|text|, i requires 0 <= i < |text| => text[i] as u8)
  }

  /** One read: some bytes (none at the end of the stream), a hang-up, or another error. */
  datatype Read = Data(bytes: seq<u8>) | HangUp | Fails

  datatype Outcome = Prompt | Eof | TooLong | Failed

  ghost predicate Contains(s: seq<u8>) {
    exists k :: PromptAt(s, k)
  }

  predicate PromptAt(s: seq<u8>, k: int) {
    0 <= k && k + |APPROVAL_PROMPT| <= |s| && s[k..k + |APPROVAL_PROMPT|] == APPROVAL_PROMPT
  }

  /** The reference: `seen` is everything read so far, and all of it is searched every time. */
  ghost function SearchAll(seen: seq<u8>, chunks: seq<Read>): Outcome
    decreases |chunks|
  {
    if chunks == [] || chunks[0].HangUp? || chunks[0] == Data([]) then Eof
    else if chunks[0].Fails? then Failed
    else
      var all := seen + chunks[0].bytes;
      if |all| > MAX_APPROVAL_PTY_BYTES then TooLong
      else if Contains(all) then Prompt
      else SearchAll(all, chunks[1..])
  }

  /** The windows of `tail`, in order, until one is the prompt. */
  method FindPrompt(tail: seq<u8>) returns (found: bool)
    ensures found <==> Contains(tail)
  {
    var k := 0;
    while k + |APPROVAL_PROMPT| <= |tail|
      invariant 0 <= k
      invariant forall j :: 0 <= j < k ==> !PromptAt(tail, j)
      decreases |tail| - k
    {
      if tail[k..k + |APPROVAL_PROMPT|] == APPROVAL_PROMPT {
        assert PromptAt(tail, k);
        return true;
      }
      k := k + 1;
    }
    return false;
  }

  method ReadUntilPrompt(chunks: seq<Read>) returns (outcome: Outcome)
    ensures outcome == SearchAll([], chunks)
  {
    var tail, total, i := [], 0, 0;
    ghost var seen: seq<u8> := [];
    while i < |chunks| && chunks[i].Data? && chunks[i].bytes != []
      invariant 0 <= i <= |chunks|
      invariant total == |seen| && !Contains(seen)
      invariant tail == LastBytes(seen)
      invariant SearchAll([], chunks) == SearchAll(seen, chunks[i..])
    {
      var bytes := chunks[i].bytes;
      total := total + |bytes|;
      if total > MAX_APPROVAL_PTY_BYTES {
        return TooLong;
      }
      StraddlingMatchesAreKept(seen, bytes);
      LastBytesOfLonger(seen, bytes);
      seen := seen + bytes;
      tail := tail + bytes;
      var found := FindPrompt(tail);
      if found {
        return Prompt;
      }
      var retained := |APPROVAL_PROMPT| - 1;
      if |tail| > retained {
        tail := tail[|tail| - retained..];
      }
      assert chunks[i..][1..] == chunks[i + 1..];
      i := i + 1;
    }
    if i < |chunks| && chunks[i].Fails? {
      return Failed;
    }
    return Eof;
  }

  /** What the reader retains: one byte less than the prompt. */
  function LastBytes(s: seq<u8>): seq<u8> {
    if |s| < |APPROVAL_PROMPT| then s else s[|s| - (|APPROVAL_PROMPT| - 1)..]
  }

  lemma LastBytesOfLonger(seen: seq<u8>, bytes: seq<u8>)
    ensures LastBytes(LastBytes(seen) + bytes) == LastBytes(seen + bytes)
  {
  }

  lemma NotWithin(seen: seq<u8>, bytes: seq<u8>, k: int)
    requires !Contains(seen) && PromptAt(seen + bytes, k)
    ensures k + |APPROVAL_PROMPT| > |seen|
  {
    assert !PromptAt(seen, k);
  }

  /** Retaining that much loses no match that straddles two reads, and invents none. */
  lemma StraddlingMatchesAreKept(seen: seq<u8>, bytes: seq<u8>)
    requires !Contains(seen)
    ensures Contains(seen + bytes) <==> Contains(LastBytes(seen) + bytes)
  {
    var tail := LastBytes(seen);
    var cut := |seen| - |tail|;
    assert seen == seen[..cut] + tail;
    if Contains(seen + bytes) {
      var k :| PromptAt(seen + bytes, k);
      NotWithin(seen, bytes, k);
      if k >= cut {
        assert (tail + bytes)[k - cut..k - cut + |APPROVAL_PROMPT|] == (seen + bytes)[k..k + |APPROVAL_PROMPT|];
        assert PromptAt(tail + bytes, k - cut);
      }
    }
    if Contains(tail + bytes) {
      var k :| PromptAt(tail + bytes, k);
      assert (tail + bytes)[k..k + |APPROVAL_PROMPT|] == (seen + bytes)[k + cut..k + cut + |APPROVAL_PROMPT|];
      assert PromptAt(seen + bytes, k + cut);
    }
  }

  // ---- what the outcome says about the stream

  function Flat(chunks: seq<Read>): seq<u8> {
    if chunks == [] then []
    else (if chunks[0].Data? then chunks[0].bytes else []) + Flat(chunks[1..])
  }

  ghost predicate AllData(chunks: seq<Read>) {
    forall i :: 0 <= i < |chunks| ==> chunks[i].Data? && chunks[i].bytes != []
  }

  lemma ContainsInLonger(s: seq<u8>, more: seq<u8>)
    requires Contains(s)
    ensures Contains(s + more)
  {
    var k :| PromptAt(s, k);
    assert (s + more)[k..k + |APPROVAL_PROMPT|] == s[k..k + |APPROVAL_PROMPT|];
    assert PromptAt(s + more, k);
  }

  /**
   On a stream within the limit, the prompt is reported if and only if the bytes of the
   whole stream contain it, and otherwise the end of the stream: the chunking cannot matter.
   */
  lemma {:induction false} OutcomeDependsOnBytesOnly(seen: seq<u8>, chunks: seq<Read>)
    requires AllData(chunks) && !Contains(seen) && |seen + Flat(chunks)| <= MAX_APPROVAL_PTY_BYTES
    ensures SearchAll(seen, chunks) == if Contains(seen + Flat(chunks)) then Prompt else Eof
    decreases |chunks|
  {
    if chunks == [] {
      assert seen + Flat(chunks) == seen;
    } else {
      var all := seen + chunks[0].bytes;
      assert seen + Flat(chunks) == all + Flat(chunks[1..]);
      if Contains(all) {
        ContainsInLonger(all, Flat(chunks[1..]));
      } else {
        OutcomeDependsOnBytesOnly(all, chunks[1..]);
      }
    }
  }

  /** The size error means that the limit was passed while no read had completed the prompt. */
  lemma {:induction false} TooLongExactlyWhenPassedFirst(seen: seq<u8>, chunks: seq<Read>)
    requires AllData(chunks) && !Contains(seen) && |seen| <= MAX_APPROVAL_PTY_BYTES
    ensures SearchAll(seen, chunks) == TooLong <==>
            exists i :: 0 <= i < |chunks| && PassesLimitAt(seen, chunks, i)
    decreases |chunks|
  {
    if chunks != [] {
      var all := seen + chunks[0].bytes;
      assert chunks[..0] == [] && chunks[..1] == [chunks[0]];
      assert Flat([chunks[0]]) == chunks[0].bytes by { assert [chunks[0]][1..] == []; }
      assert seen + Flat(chunks[..0]) == seen;
      if |all| > MAX_APPROVAL_PTY_BYTES {
        assert PassesLimitAt(seen, chunks, 0);
      } else {
        if !Contains(all) {
          TooLongExactlyWhenPassedFirst(all, chunks[1..]);
          if exists j :: 0 <= j < |chunks[1..]| && PassesLimitAt(all, chunks[1..], j) {
            var j :| 0 <= j < |chunks[1..]| && PassesLimitAt(all, chunks[1..], j);
            LimitShift(seen, chunks, j + 1);
          }
        }
        forall i | 0 <= i < |chunks|
          ensures PassesLimitAt(seen, chunks, i) <==>
                    i > 0 && !Contains(all) && PassesLimitAt(all, chunks[1..], i - 1) {
          LimitShift(seen, chunks, i);
        }
      }
    }
  }

  ghost predicate PassesLimitAt(seen: seq<u8>, chunks: seq<Read>, i: int) {
    0 <= i < |chunks| && !Contains(seen + Flat(chunks[..i])) && |seen + Flat(chunks[..i])| <= MAX_APPROVAL_PTY_BYTES
    && |seen + Flat(chunks[..i + 1])| > MAX_APPROVAL_PTY_BYTES
  }

  lemma LimitShift(seen: seq<u8>, chunks: seq<Read>, i: nat)
    requires i < |chunks| && AllData(chunks)
    requires |seen + chunks[0].bytes| <= MAX_APPROVAL_PTY_BYTES
    ensures PassesLimitAt(seen, chunks, i) <==>
            i > 0 && !Contains(seen + chunks[0].bytes) && PassesLimitAt(seen + chunks[0].bytes, chunks[1..], i - 1)
  {
    var all := seen + chunks[0].bytes;
    assert chunks[..i + 1][1..] == chunks[1..][..i];
    assert seen + Flat(chunks[..i + 1]) == all + Flat(chunks[1..][..i]);
    if i == 0 {
      assert Flat(chunks[1..][..0]) == [];
    } else {
      assert chunks[..i][1..] == chunks[1..][..i - 1];
      assert seen + Flat(chunks[..i]) == all + Flat(chunks[1..][..i - 1]);
      if Contains(all) {
        ContainsInLonger(all, Flat(chunks[1..][..i - 1]));
      }
    }
  }
}
