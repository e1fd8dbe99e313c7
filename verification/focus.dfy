/**
 Focus reports recognised byte by byte. The reference remembers every byte since the last
 recognised sequence and searches all of them; the tracker keeps only a short partial match.
 */
module Focus {
  import opened Prelude

  const ESC: u8 := 0x1b
  const FOCUS_IN: seq<u8> := [ESC, '[' as u8, 'I' as u8]
  const FOCUS_OUT: seq<u8> := [ESC, '[' as u8, 'O' as u8]
  const PASTE_START: seq<u8> := [ESC, '[' as u8, '2' as u8, '0' as u8, '0' as u8, '~' as u8]
  const PASTE_END: seq<u8> := [ESC, '[' as u8, '2' as u8, '0' as u8, '1' as u8, '~' as u8]

  datatype Token = FocusIn | FocusOut | PasteStart | PasteEnd

  function Spelling(t: Token): seq<u8> {
    match t
    case FocusIn => FOCUS_IN
    case FocusOut => FOCUS_OUT
    case PasteStart => PASTE_START
    case PasteEnd => PASTE_END
  }

  /** The sequences looked for: only the end marker counts inside a bracketed paste. */
  predicate Active(paste: bool, t: Token) {
    paste <==> t.PasteEnd?
  }

  predicate IsSuffix(x: seq<u8>, s: seq<u8>) {
    |x| <= |s| && s[|s| - |x|..] == x
  }

  // ---- the reference: search everything since the last token

  datatype Scan = Scan(tokens: seq<Token>, since: seq<u8>)

  function InPaste(tokens: seq<Token>): bool {
    if tokens == [] then false
    else
      match tokens[|tokens| - 1]
      case PasteStart => true
      case PasteEnd => false
      case _ => InPaste(tokens[..|tokens| - 1])
  }

  /** The polarity of the last focus report; a terminal starts focused. */
  function Focused(tokens: seq<Token>): bool {
    if tokens == [] then true
    else
      match tokens[|tokens| - 1]
      case FocusIn => true
      case FocusOut => false
      case _ => Focused(tokens[..|tokens| - 1])
  }

  function TokenAtEnd(paste: bool, s: seq<u8>): Option<Token> {
    if Active(paste, FocusIn) && IsSuffix(FOCUS_IN, s) then Some(FocusIn)
    else if Active(paste, FocusOut) && IsSuffix(FOCUS_OUT, s) then Some(FocusOut)
    else if Active(paste, PasteStart) && IsSuffix(PASTE_START, s) then Some(PasteStart)
    else if Active(paste, PasteEnd) && IsSuffix(PASTE_END, s) then Some(PasteEnd)
    else None
  }

  function Feed(scan: Scan, byte: u8): Scan {
    match TokenAtEnd(InPaste(scan.tokens), scan.since + [byte])
    case Some(t) => Scan(scan.tokens + [t], [])
    case None => scan.(since := scan.since + [byte])
  }

  function Scanned(stream: seq<u8>): Scan {
    if stream == [] then Scan([], []) else Feed(Scanned(stream[..|stream| - 1]), stream[|stream| - 1])
  }

  // ---- partial matches

  function TokenOf(x: seq<u8>): Token {
    if x == FOCUS_IN then FocusIn
    else if x == FOCUS_OUT then FocusOut
    else if x == PASTE_START then PasteStart
    else PasteEnd
  }

  /** A proper prefix of an active sequence; the empty one always is. */
  predicate Partial(paste: bool, x: seq<u8>) {
    if paste then x < PASTE_END else x < FOCUS_IN || x < FOCUS_OUT || x < PASTE_START
  }

  /** One whole active sequence. */
  predicate Complete(paste: bool, x: seq<u8>) {
    if paste then x == PASTE_END else x == FOCUS_IN || x == FOCUS_OUT || x == PASTE_START
  }

  ghost predicate LongestPartial(paste: bool, since: seq<u8>, p: seq<u8>) {
    && IsSuffix(p, since) && Partial(paste, p)
    && forall q :: IsSuffix(q, since) && Partial(paste, q) ==> |q| <= |p|
  }

  /** A non-empty prefix of any of the sequences has its only escape byte in front. */
  predicate EscapeFirst(x: seq<u8>) {
    x == [] || (x[0] == ESC && forall i :: 0 < i < |x| ==> x[i] != ESC)
  }

  lemma PrefixesEscapeFirst(paste: bool, x: seq<u8>)
    requires Partial(paste, x) || Complete(paste, x)
    ensures EscapeFirst(x)
  {
  }

  // ---- suffixes

  lemma SuffixInit(x: seq<u8>, s: seq<u8>, byte: u8)
    requires x != [] && IsSuffix(x, s + [byte])
    ensures x == x[..|x| - 1] + [byte] && IsSuffix(x[..|x| - 1], s)
  {
    assert (s + [byte])[|s| + 1 - |x|..] == s[|s| + 1 - |x|..] + [byte];
  }

  lemma SuffixSnoc(y: seq<u8>, s: seq<u8>, byte: u8)
    requires IsSuffix(y, s)
    ensures IsSuffix(y + [byte], s + [byte])
  {
    assert (s + [byte])[|s| - |y|..] == s[|s| - |y|..] + [byte];
  }

  lemma ShorterSuffix(x: seq<u8>, p: seq<u8>, s: seq<u8>)
    requires IsSuffix(x, s) && IsSuffix(p, s) && |x| <= |p|
    ensures IsSuffix(x, p)
  {
    assert s[|s| - |p|..][|p| - |x|..] == s[|s| - |x|..];
  }

  lemma SuffixOfSuffix(x: seq<u8>, p: seq<u8>, s: seq<u8>)
    requires IsSuffix(x, p) && IsSuffix(p, s)
    ensures IsSuffix(x, s)
  {
    assert s[|s| - |p|..][|p| - |x|..] == s[|s| - |x|..];
  }

  /** Two non-empty prefixes of sequences that end in the same place are the same one. */
  lemma EscapeFirstIsUnique(x: seq<u8>, y: seq<u8>, s: seq<u8>)
    requires IsSuffix(x, s) && IsSuffix(y, s) && x != [] && y != [] && EscapeFirst(x) && EscapeFirst(y)
    ensures x == y
  {
    assert x[0] == s[|s| - |x|] == ESC && y[0] == s[|s| - |y|] == ESC;
    assert forall i :: 0 < i < |x| ==> s[|s| - |x| + i] == x[i];
    assert forall i :: 0 < i < |y| ==> s[|s| - |y| + i] == y[i];
    assert |x| == |y|;
  }

  lemma InitIsPartial(paste: bool, x: seq<u8>)
    requires x != [] && (Partial(paste, x) || Complete(paste, x))
    ensures Partial(paste, x[..|x| - 1])
  {
  }

  /** Any sequence or partial sequence ending at the next byte extends the pending partial match. */
  lemma ExtendsPending(paste: bool, since: seq<u8>, pending: seq<u8>, byte: u8, x: seq<u8>)
    requires LongestPartial(paste, since, pending)
    requires x != [] && IsSuffix(x, since + [byte])
    requires Partial(paste, x) || Complete(paste, x)
    ensures IsSuffix(x, pending + [byte])
  {
    hide Partial, Complete, IsSuffix;
    var y := x[..|x| - 1];
    SuffixInit(x, since, byte);
    InitIsPartial(paste, x);
    ShorterSuffix(y, pending, since);
    SuffixSnoc(y, pending, byte);
  }

  // ---- the tracker

  class FocusTracker {
    var pending: seq<u8>
    var inBracketedPaste: bool
    var focused: bool
    /** Every byte observed so far. */
    ghost var seen: seq<u8>

    constructor ()
      ensures Valid() && seen == [] && focused
    {
      pending, inBracketedPaste, focused := [], false, true;
      seen := [];
      EmptyIsPartial(false);
    }

    /** The fields are what searching the whole stream gives. */
    ghost predicate Valid()
      reads this
    {
      && inBracketedPaste == InPaste(Scanned(seen).tokens)
      && focused == Focused(Scanned(seen).tokens)
      && LongestPartial(inBracketedPaste, Scanned(seen).since, pending)
    }

    /** Observes one more chunk and returns the last report completed in it. */
    method Observe(bytes: seq<u8>) returns (observed: Option<bool>)
      requires Valid()
      modifies this
      ensures Valid() && seen == old(seen) + bytes
      ensures Scanned(old(seen)).tokens <= Scanned(seen).tokens
      ensures observed == LastReport(Scanned(seen).tokens[|Scanned(old(seen)).tokens|..])
    {
      hide Valid, Feed;
      observed := None;
      ghost var start := Scanned(seen).tokens;
      assert start[|start|..] == [];
      for i := 0 to |bytes|
        invariant Valid() && seen == old(seen) + bytes[..i]
        invariant start <= Scanned(seen).tokens
        invariant observed == LastReport(Scanned(seen).tokens[|start|..])
      {
        ghost var before := Scanned(seen);
        var report := ObserveByte(bytes[i]);
        if report.Some? {
          observed := report;
        }
        assert bytes[..i] + [bytes[i]] == bytes[..i + 1];
        FeedAddsAtMostOne(before, bytes[i], |start|);
      }
      assert bytes[..|bytes|] == bytes;
    }

    method ObserveByte(byte: u8) returns (report: Option<bool>)
      requires Valid()
      modifies this
      ensures Valid() && seen == old(seen) + [byte]
      ensures Scanned(seen) == Feed(Scanned(old(seen)), byte)
      ensures report == LastReport(Scanned(seen).tokens[|Scanned(old(seen)).tokens|..])
    {
      hide Partial, Complete, IsSuffix, TokenAtEnd, LongestPartial, NothingLonger, InPaste, Focused, Scanned;
      report := None;
      ghost var scan, held := Scanned(seen), pending;
      ghost var s := held + [byte];
      seen := seen + [byte];
      ghost var after := Feed(scan, byte);
      ScannedSnoc(old(seen), byte);
      assert scan.tokens[|scan.tokens|..] == [];
      pending := pending + [byte];
      WholeIsSuffix(s);
      while true
        invariant inBracketedPaste == InPaste(scan.tokens) && focused == Focused(scan.tokens) && report == None
        invariant seen == old(seen) + [byte]
        invariant pending != [] && IsSuffix(pending, s) && NothingLonger(inBracketedPaste, s, |pending|)
        decreases |pending|
      {
        if Complete(inBracketedPaste, pending) {
          MatchFound(inBracketedPaste, scan.since, held, byte, pending);
          TokenEffects(scan.tokens, TokenOf(pending));
          assert after == Scan(scan.tokens + [TokenOf(pending)], []);
          if pending == FOCUS_IN {
            focused, report := true, Some(true);
          } else if pending == FOCUS_OUT {
            focused, report := false, Some(false);
          } else {
            inBracketedPaste := pending == PASTE_START;
          }
          pending := [];
          return;
        }
        if Partial(inBracketedPaste, pending) {
          break;
        }
        DropFirst(inBracketedPaste, pending, s);
        pending := pending[1..];
        if pending == [] {
          EmptyIsPartial(inBracketedPaste);
          break;
        }
      }
      NoMatch(inBracketedPaste, scan.since, held, byte, pending);
      assert after == scan.(since := scan.since + [byte]);
    }
  }

  lemma ScannedSnoc(stream: seq<u8>, byte: u8)
    ensures Scanned(stream + [byte]) == Feed(Scanned(stream), byte)
  {
    assert (stream + [byte])[..|stream|] == stream;
  }

  lemma FeedAddsAtMostOne(before: Scan, byte: u8, n: nat)
    requires n <= |before.tokens|
    ensures var after := Feed(before, byte);
            && before.tokens <= after.tokens
            && LastReport(after.tokens[n..]) ==
               (if LastReport(after.tokens[|before.tokens|..]).Some? then LastReport(after.tokens[|before.tokens|..])
                 else LastReport(before.tokens[n..]))
  {
    hide TokenAtEnd;
    var after := Feed(before, byte);
    if after.tokens != before.tokens {
      var t := after.tokens[|before.tokens|];
      assert after.tokens[n..] == before.tokens[n..] + [t];
      assert (before.tokens[n..] + [t])[..|before.tokens| - n] == before.tokens[n..];
      TokenEffects(before.tokens, t);
    } else {
      assert after.tokens[|before.tokens|..] == [];
    }
  }

  /** No sequence or partial sequence longer than `n` ends here. */
  ghost predicate NothingLonger(paste: bool, s: seq<u8>, n: nat) {
    forall q :: IsSuffix(q, s) && |q| > n ==> !Partial(paste, q) && !Complete(paste, q)
  }

  lemma WholeIsSuffix(s: seq<u8>)
    ensures IsSuffix(s, s) && forall paste :: NothingLonger(paste, s, |s|)
  {
  }

  lemma EmptyIsPartial(paste: bool)
    ensures Partial(paste, []) && !Complete(paste, []) && LongestPartial(paste, [], [])
  {
  }

  lemma DropFirst(paste: bool, p: seq<u8>, s: seq<u8>)
    requires p != [] && IsSuffix(p, s) && NothingLonger(paste, s, |p|)
    requires !Partial(paste, p) && !Complete(paste, p)
    ensures IsSuffix(p[1..], s) && NothingLonger(paste, s, |p[1..]|)
  {
    hide Partial, Complete;
    assert s[|s| - |p|..][1..] == s[|s| - |p| + 1..];
  }

  /** What one more token does to the two flags and to the reports. */
  lemma TokenEffects(tokens: seq<Token>, t: Token)
    ensures InPaste(tokens + [t]) == (if t.PasteStart? then true else if t.PasteEnd? then false else InPaste(tokens))
    ensures Focused(tokens + [t]) == (if t.FocusIn? then true else if t.FocusOut? then false else Focused(tokens))
    ensures (tokens + [t])[|tokens|..] == [t]
    ensures LastReport([t]) == if t.FocusIn? then Some(true) else if t.FocusOut? then Some(false) else None
  {
    assert (tokens + [t])[..|tokens|] == tokens;
  }

  /** The last focus report among some tokens. */
  function LastReport(tokens: seq<Token>): Option<bool> {
    if tokens == [] then None
    else
      match tokens[|tokens| - 1]
      case FocusIn => Some(true)
      case FocusOut => Some(false)
      case _ => LastReport(tokens[..|tokens| - 1])
  }

  lemma TokenAtEndFinds(paste: bool, s: seq<u8>, x: seq<u8>)
    requires Complete(paste, x) && IsSuffix(x, s)
    ensures TokenAtEnd(paste, s) == Some(TokenOf(x))
  {
    hide IsSuffix;
    if IsSuffix(FOCUS_IN, s) {
      EscapeFirstIsUnique(FOCUS_IN, x, s);
    }
    if IsSuffix(FOCUS_OUT, s) {
      EscapeFirstIsUnique(FOCUS_OUT, x, s);
    }
    if IsSuffix(PASTE_START, s) {
      EscapeFirstIsUnique(PASTE_START, x, s);
    }
  }

  lemma TokenAtEndMisses(paste: bool, s: seq<u8>)
    requires forall x :: Complete(paste, x) ==> !IsSuffix(x, s)
    ensures TokenAtEnd(paste, s) == None
  {
    hide IsSuffix;
    assert paste ==> Complete(paste, PASTE_END);
    assert !paste ==> Complete(paste, FOCUS_IN) && Complete(paste, FOCUS_OUT) && Complete(paste, PASTE_START);
  }

  lemma MatchFound(paste: bool, since: seq<u8>, held: seq<u8>, byte: u8, pending: seq<u8>)
    requires LongestPartial(paste, since, held) && IsSuffix(pending, held + [byte])
    requires Complete(paste, pending)
    ensures TokenAtEnd(paste, since + [byte]) == Some(TokenOf(pending))
    ensures forall p :: LongestPartial(p, [], [])
    ensures pending in [FOCUS_IN, FOCUS_OUT, PASTE_START, PASTE_END]
  {
    hide IsSuffix, Partial, TokenAtEnd;
    SuffixSnoc(held, since, byte);
    SuffixOfSuffix(pending, held + [byte], since + [byte]);
    TokenAtEndFinds(paste, since + [byte], pending);
    EmptyIsPartial(true);
    EmptyIsPartial(false);
  }

  lemma NoMatch(paste: bool, since: seq<u8>, held: seq<u8>, byte: u8, pending: seq<u8>)
    requires LongestPartial(paste, since, held) && IsSuffix(pending, held + [byte]) && Partial(paste, pending)
    requires NothingLonger(paste, held + [byte], |pending|) && !Complete(paste, pending)
    ensures TokenAtEnd(paste, since + [byte]) == None
    ensures LongestPartial(paste, since + [byte], pending)
  {
    hide IsSuffix, Partial, Complete, TokenAtEnd;
    SuffixSnoc(held, since, byte);
    SuffixOfSuffix(pending, held + [byte], since + [byte]);
    forall x | Complete(paste, x) ensures !IsSuffix(x, since + [byte]) {
      if IsSuffix(x, since + [byte]) {
        CompleteIsNot(paste, since, held, byte, pending, x);
      }
    }
    TokenAtEndMisses(paste, since + [byte]);
    forall q | IsSuffix(q, since + [byte]) && Partial(paste, q) ensures |q| <= |pending| {
      if q != [] {
        ExtendsPending(paste, since, held, byte, q);
      }
    }
  }

  lemma CompleteIsNot(paste: bool, since: seq<u8>, held: seq<u8>, byte: u8, pending: seq<u8>, x: seq<u8>)
    requires LongestPartial(paste, since, held) && IsSuffix(pending, held + [byte]) && Partial(paste, pending)
    requires NothingLonger(paste, held + [byte], |pending|) && !Complete(paste, pending)
    requires Complete(paste, x)
    ensures !IsSuffix(x, since + [byte])
  {
    hide IsSuffix;
    EmptyIsPartial(paste);
    if IsSuffix(x, since + [byte]) {
      ExtendsPending(paste, since, held, byte, x);
      if pending != [] {
        PrefixesEscapeFirst(paste, x);
        PrefixesEscapeFirst(paste, pending);
        EscapeFirstIsUnique(x, pending, held + [byte]);
      }
    }
  }

  /** Trackers that saw the same bytes agree, however those bytes were cut into chunks. */
  lemma ChunkingIsInvisible(a: FocusTracker, b: FocusTracker)
    requires a.Valid() && b.Valid() && a.seen == b.seen
    ensures a.pending == b.pending && a.inBracketedPaste == b.inBracketedPaste && a.focused == b.focused
  {
    var since := Scanned(a.seen).since;
    assert |a.pending| == |b.pending|;
    assert a.pending == since[|since| - |a.pending|..] == b.pending;
  }

  /** A focus report outside a paste is always recognised, whatever bytes came before it. */
  lemma ReportIsSeen(stream: seq<u8>)
    requires !InPaste(Scanned(stream).tokens)
    ensures Scanned(stream + FOCUS_IN).tokens == Scanned(stream).tokens + [FocusIn]
    ensures Scanned(stream + FOCUS_OUT).tokens == Scanned(stream).tokens + [FocusOut]
  {
    TokenCompletes(stream, FocusIn);
    TokenCompletes(stream, FocusOut);
  }

  /** Inside a paste a focus-shaped text changes nothing, and the end marker always ends the paste. */
  lemma PasteIsOpaque(stream: seq<u8>)
    requires InPaste(Scanned(stream).tokens)
    ensures Scanned(stream + FOCUS_IN).tokens == Scanned(stream).tokens == Scanned(stream + FOCUS_OUT).tokens
    ensures Scanned(stream + PASTE_END).tokens == Scanned(stream).tokens + [PasteEnd]
  {
    NoTokenInside(stream, FOCUS_IN, 3);
    NoTokenInside(stream, FOCUS_OUT, 3);
    assert FOCUS_IN[..3] == FOCUS_IN && FOCUS_OUT[..3] == FOCUS_OUT;
    TokenCompletes(stream, PasteEnd);
  }

  /** No sequence ends at byte `b`. */
  predicate EndsNothing(paste: bool, b: u8) {
    if paste then b != '~' as u8 else b != 'I' as u8 && b != 'O' as u8 && b != '~' as u8
  }

  lemma {:induction false} NoTokenInside(stream: seq<u8>, bytes: seq<u8>, k: nat)
    requires k <= |bytes|
    requires forall i :: 0 <= i < k ==> EndsNothing(InPaste(Scanned(stream).tokens), bytes[i])
    ensures Scanned(stream + bytes[..k]) == Scan(Scanned(stream).tokens, Scanned(stream).since + bytes[..k])
  {
    hide TokenAtEnd, Scanned, InPaste, EndsNothing;
    if k == 0 {
      assert stream + bytes[..0] == stream;
      assert Scanned(stream).since + bytes[..0] == Scanned(stream).since;
    } else {
      NoTokenInside(stream, bytes, k - 1);
      var before, b := stream + bytes[..k - 1], bytes[k - 1];
      ScannedSnoc(before, b);
      assert before + [b] == stream + bytes[..k];
      assert Scanned(stream).since + bytes[..k - 1] + [b] == Scanned(stream).since + bytes[..k];
      LastByteDecides(InPaste(Scanned(stream).tokens), Scanned(before).since, b);
    }
  }

  lemma LastByteDecides(paste: bool, since: seq<u8>, b: u8)
    requires EndsNothing(paste, b)
    ensures TokenAtEnd(paste, since + [b]) == None
  {
    forall x | Complete(paste, x) ensures !IsSuffix(x, since + [b]) {
      if IsSuffix(x, since + [b]) {
        SuffixInit(x, since, b);
      }
    }
    TokenAtEndMisses(paste, since + [b]);
  }

  lemma TokenCompletes(stream: seq<u8>, t: Token)
    requires Active(InPaste(Scanned(stream).tokens), t)
    ensures Scanned(stream + Spelling(t)).tokens == Scanned(stream).tokens + [t]
  {
    hide TokenAtEnd, IsSuffix, InPaste, Scanned;
    var paste, bytes := InPaste(Scanned(stream).tokens), Spelling(t);
    var n := |bytes| - 1;
    NoTokenInside(stream, bytes, n);
    var before := stream + bytes[..n];
    ScannedSnoc(before, bytes[n]);
    assert before + [bytes[n]] == stream + bytes;
    var whole := Scanned(stream).since + bytes;
    assert Scanned(before).since + [bytes[n]] == whole;
    AppendedIsSuffix(bytes, Scanned(stream).since);
    TokenAtEndFinds(paste, whole, bytes);
  }

  lemma AppendedIsSuffix(x: seq<u8>, s: seq<u8>)
    ensures IsSuffix(x, s + x)
  {
  }
}
