/**
 The lock guardian's table of process groups, as values: which table and which reply
 follow from one request. The imperative guardian and the interleaved protocol share
 these definitions.
 */
module GuardianSlots {
  import opened Prelude

  const SLOT_COUNT := 16

  datatype Request = Register(group: int) | Complete(group: int) | Release | Unknown

  datatype Reply = Ready | Okay | Busy | Invalid

  /** What the guardian does after a request: answer and keep serving, or acknowledge and exit. */
  datatype Served = Served(slots: seq<int>, reply: Reply, exits: bool)

  function EmptySlots(): (slots: seq<int>)
    ensures |slots| == SLOT_COUNT && forall i :: 0 <= i < SLOT_COUNT ==> slots[i] == 0
  {
    seq(SLOT_COUNT, _ => 0)
  }

  /** The first index of `x`, as an iterator `find` would meet it. */
  function FirstIndex(s: seq<int>, x: int): (r: Option<nat>)
    ensures r.None? <==> x !in s
    ensures r.Some? ==> r.value < |s| && s[r.value] == x && x !in s[..r.value]
  {
    if s == [] then None
    else if s[0] == x then Some(0)
    else
      match FirstIndex(s[1..], x)
      case None => None
      case Some(i) =>
        assert s[..i + 1] == [s[0]] + s[1..][..i];
        Some(i + 1)
  }

  lemma {:induction false} FirstIndexIs(s: seq<int>, x: int, i: nat)
    requires i < |s| && s[i] == x && x !in s[..i]
    ensures FirstIndex(s, x) == Some(i)
  {
    if i > 0 {
      assert s[..i][0] == s[0];
      assert s[1..][..i - 1] == s[..i][1..];
      FirstIndexIs(s[1..], x, i - 1);
    }
  }

  function RegisterIn(slots: seq<int>, group: int): (seq<int>, Reply) {
    match FirstIndex(slots, 0)
    case Some(i) => (slots[i := group], Okay)
    case None => (slots, Busy)
  }

  /** `gone` is whether the group had disappeared by the end of its forced termination. */
  function CompleteIn(slots: seq<int>, group: int, gone: bool): (seq<int>, Reply) {
    match FirstIndex(slots, group)
    case None => (slots, Invalid)
    case Some(i) => if gone then (slots[i := 0], Okay) else (slots, Busy)
  }

  /**
   One sweep over the table: a slot is cleared only for a group that no longer exists, and stays occupied
   only for one that was there to the end of its forced termination.
   */
  ghost predicate Swept(before: seq<int>, after: seq<int>, outlasting: set<int>, existing: set<int>) {
    && |after| == |before|
    && forall i :: 0 <= i < |before| ==>
         || (after[i] == before[i] && (before[i] == 0 || before[i] in outlasting))
         || (after[i] == 0 && before[i] !in existing)
  }

  predicate AllFree(slots: seq<int>) {
    forall i :: 0 <= i < |slots| ==> slots[i] == 0
  }

  /**
   Everything one request may do to a serving guardian: `outlasting` are the groups that a forced
   termination begun with the request does not get rid of, `existing` those that are there when it has been handled.
   */
  ghost predicate Serves(slots: seq<int>, request: Request, outlasting: set<int>, existing: set<int>, out: Served) {
    match request
    case Register(g) =>
      !out.exits &&
      (out.slots, out.reply) == if g > 1 then RegisterIn(slots, g) else (slots, Invalid)
    case Complete(g) =>
      && !out.exits && (out.slots, out.reply) == CompleteIn(slots, g, g <= 1 || g !in outlasting)
      && (out.reply == Okay && g > 1 ==> g !in existing)
    case Release =>
      && Swept(slots, out.slots, outlasting, existing)
      && (out.exits <==> out.reply == Okay)
      && (out.exits <==> AllFree(out.slots))
      && (!out.exits ==> out.reply == Busy)
    case Unknown => !out.exits && out.slots == slots && out.reply == Invalid
  }

  /** As one step of a protocol that sees only which groups are there afterwards. */
  ghost predicate Handles(slots: seq<int>, request: Request, existing: set<int>, out: Served) {
    exists outlasting :: existing <= outlasting && Serves(slots, request, outlasting, existing, out)
  }

  /** Registered groups are real process groups; 0 marks a free slot. */
  predicate WellFormed(slots: seq<int>) {
    |slots| == SLOT_COUNT && forall i :: 0 <= i < |slots| ==> slots[i] == 0 || slots[i] > 1
  }

  /** A group in the table leaves it only by ceasing to exist, whatever the request. */
  lemma ServingKeepsLiveGroups(slots: seq<int>, request: Request, outlasting: set<int>, existing: set<int>, out: Served,
                               g: int)
    requires WellFormed(slots) && Serves(slots, request, outlasting, existing, out)
    ensures WellFormed(out.slots)
    ensures g > 1 && g in existing && g in slots ==> g in out.slots && !out.exits
    ensures request == Register(g) && out.reply == Okay ==> g in out.slots
  {
    if g > 1 && g in existing && g in slots {
      var i :| 0 <= i < |slots| && slots[i] == g;
      assert out.slots[i] == g;
    }
    if request == Register(g) && out.reply == Okay {
      var i := FirstIndex(slots, 0).value;
      assert out.slots[i] == g;
    }
  }

  lemma HandlingKeepsLiveGroups(slots: seq<int>, request: Request, existing: set<int>, out: Served, g: int)
    requires WellFormed(slots) && Handles(slots, request, existing, out)
    ensures WellFormed(out.slots)
    ensures g > 1 && g in existing && g in slots ==> g in out.slots && !out.exits
    ensures request == Register(g) && out.reply == Okay ==> g in out.slots
  {
    hide Serves, WellFormed;
    var outlasting :| existing <= outlasting && Serves(slots, request, outlasting, existing, out);
    ServingKeepsLiveGroups(slots, request, outlasting, existing, out, g);
  }

  lemma ServingIsHandling(slots: seq<int>, request: Request, existing: set<int>, out: Served)
    requires Serves(slots, request, existing, existing, out)
    ensures Handles(slots, request, existing, out)
  {
  }

  /** A release is granted if every registered group is got rid of, and refused if one of them is still there. */
  lemma ReleaseAnswers(slots: seq<int>, outlasting: set<int>, existing: set<int>, out: Served)
    requires WellFormed(slots) && Serves(slots, Release, outlasting, existing, out)
    ensures (forall g :: g in slots && g > 1 ==> g !in outlasting) ==> out == Served(EmptySlots(), Okay, true)
    ensures (exists g :: g in slots && g > 1 && g in existing) ==> out.reply == Busy && !out.exits
  {
    if forall g :: g in slots && g > 1 ==> g !in outlasting {
      forall i | 0 <= i < |slots| ensures out.slots[i] == 0 {
        assert slots[i] in slots;
      }
      assert out.slots == EmptySlots();
    }
    if g :| g in slots && g > 1 && g in existing {
      var i :| 0 <= i < |slots| && slots[i] == g;
      assert out.slots[i] == g;
    }
  }
}
