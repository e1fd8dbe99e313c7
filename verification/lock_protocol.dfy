/**
 The repository lock across processes: any number of `bp-host` helpers contend for one
 flock, each helper forks a guardian that shares the lock's open file description, and
 gated process groups run commands under it. A helper may die between any two steps.
 Helper and guardian talk over a FIFO channel: one answer for each request, in order, so a
 helper that gives up waiting reads the next answer for the wrong request.
 */
module LockProtocol {
  import opened Prelude
  import opened GuardianSlots

  /**
   The helper's side: whether it still has the lock file and its channel open, what it waits for, whether
   it has asked for the release, how many requests it gave up on, and how many registrations it has sent.
   */
  datatype Parent = Parent(holds: bool, starting: bool, waiting: Option<Request>, releasing: bool, timedOut: nat,
                           sent: nat)

  datatype Guardian = Booting | Serving(slots: seq<int>) | Draining(slots: seq<int>) | Exited

  /** An answer on its way; the helper sees only the reply, not the request it belongs to. */
  datatype Answer = Answer(request: Request, reply: Reply)

  /** One acquisition: its open file description is `unlocked` only by an explicit LOCK_UN. */
  datatype Instance = Instance(parent: Parent, guardian: Guardian, requests: seq<Request>,
                               answers: seq<Answer>, unlocked: bool)

  datatype Gate = Closed | Registered | Opened

  datatype Group = Group(owner: nat, gate: Gate, alive: bool)

  datatype State = State(instances: map<nat, Instance>, groups: map<int, Group>)

  /**
   The three rules the design rests on: a gate is opened only after its group's registration was
   answered, dropping the lock does not unlock it, and registrations stop once more than `timeouts`
   requests have gone unanswered. The code keeps the first two for every command and every drop, and the
   third with `timeouts` being one: callers return on the first failed command, except that the listing
   before a switch discards its error, and such a command leaves one request unanswered at most.
   */
  datatype Rules = Rules(registerBeforeGate: bool, dropKeepsLock: bool, timeouts: nat)

  const SHIPPED := Rules(true, true, 1)

  predicate Kept(rules: Rules) {
    rules.registerBeforeGate && rules.dropKeepsLock && rules.timeouts <= 1
  }

  /** flock semantics: the lock stays until every copy of the description is closed, or LOCK_UN. */
  predicate Locked(i: Instance) {
    !i.unlocked && (i.parent.holds || !i.guardian.Exited?)
  }

  function Living(s: State): (groups: set<int>)
    ensures forall g :: g in groups <==> g in s.groups && s.groups[g].alive
  {
    set g | g in s.groups && s.groups[g].alive
  }

  datatype Step =
    | Acquire(id: nat)
    | Boot(id: nat)
    | BootFails(id: nat)
    | ReadReady(id: nat)
    | StartFails(id: nat)
    | Spawn(id: nat, group: int)
    | SendRegister(id: nat, group: int)
    | SendOther(id: nat, request: Request)
    | SendRelease(id: nat)
    | ReadAnswer(id: nat)
    | TimeOut(id: nat)
    | OpenGate(id: nat, group: int)
    | GroupDies(group: int)
    | Serve(id: nat, out: Served)
    | EndOfFile(id: nat)
    | ReplyFails(id: nat, out: Served)
    | DrainEnds(id: nat)
    | Drop(id: nat)
    | Crash(id: nat)

  predicate Init(s: State) {
    s == State(map[], map[])
  }

  function Put(s: State, id: nat, i: Instance): State {
    s.(instances := s.instances[id := i])
  }

  function PutGroup(s: State, g: int, group: Group): State {
    s.(groups := s.groups[g := group])
  }

  const READY := Answer(Unknown, Ready)

  function Fresh(): Instance {
    Instance(Parent(true, true, None, false, 0, 0), Booting, [], [], false)
  }

  /** The helper may send its next request; after the release it sends none. */
  predicate Idle(i: Instance) {
    i.parent.holds && !i.parent.starting && i.parent.waiting == None && !i.parent.releasing
  }

  function Ask(i: Instance, q: Request): Instance {
    i.(requests := i.requests + [q],
       parent := i.parent.(waiting := Some(q), releasing := q.Release?,
                           sent := i.parent.sent + (if q.Register? then 1 else 0)))
  }

  function Close(i: Instance): Instance {
    i.(parent := i.parent.(holds := false, waiting := None))
  }

  /** The first request has been handled and its answer delivered. */
  function Answered(i: Instance, out: Served): Instance
    requires i.requests != []
  {
    i.(requests := i.requests[1..], answers := i.answers + [Answer(i.requests[0], out.reply)],
       guardian := if out.exits then Exited else Serving(out.slots))
  }

  /** The helper takes the next answer for the one it waits for. */
  function Read(i: Instance): Instance
    requires i.answers != []
  {
    i.(answers := i.answers[1..], parent := i.parent.(waiting := None))
  }

  ghost predicate NextStep(rules: Rules, s: State, s': State, step: Step) {
    if step.GroupDies? then
      step.group in s.groups && s' == PutGroup(s, step.group, s.groups[step.group].(alive := false))
    else if step.Acquire? then
      && step.id !in s.instances
      && (forall j :: j in s.instances ==> !Locked(s.instances[j]))
      && s' == Put(s, step.id, Fresh())
    else
      step.id in s.instances && InstanceStep(rules, s, s', step, s.instances[step.id])
  }

  ghost predicate InstanceStep(rules: Rules, s: State, s': State, step: Step, i: Instance) {
    match step
    case Acquire(_) => false
    case GroupDies(_) => false
    case Boot(id) =>
      i.guardian.Booting? && s' == Put(s, id, i.(guardian := Serving(EmptySlots()), answers := i.answers + [READY]))
    case BootFails(id) =>
      i.guardian.Booting? && s' == Put(s, id, i.(guardian := Exited))
    case ReadReady(id) =>
      && i.parent.holds && i.parent.starting && i.answers != [] && i.answers[0].reply == Ready
      && s' == Put(s, id, i.(answers := i.answers[1..], parent := i.parent.(starting := false)))
    case StartFails(id) =>
      // the guardian is killed and reaped, then the lock is released explicitly
      && i.parent.holds && i.parent.starting
      && s' == Put(s, id, Close(i).(guardian := Exited, unlocked := true))
    case Spawn(id, g) =>
      && i.parent.holds && !i.parent.starting && g > 1 && g !in s.groups
      && s' == PutGroup(s, g, Group(id, Closed, true))
    case SendRegister(id, g) =>
      // one acquisition runs at most seven commands; the limit matters only once an answer is missing
      && Idle(i) && i.parent.timedOut <= rules.timeouts && (i.parent.timedOut > 0 ==> i.parent.sent < SLOT_COUNT)
      && g in s.groups && s.groups[g].owner == id && s.groups[g].gate == Closed
      && s' == Put(s, id, Ask(i, Register(g)))
    case SendOther(id, q) =>
      Idle(i) && !q.Register? && !q.Release? && s' == Put(s, id, Ask(i, q))
    case SendRelease(id) =>
      Idle(i) && s' == Put(s, id, Ask(i, Release))
    case ReadAnswer(id) =>
      && i.parent.holds && i.parent.waiting.Some? && i.answers != []
      && var q, read := i.parent.waiting.value, Put(s, id, Read(i));
         s' == if q.Register? && i.answers[0].reply == Okay && q.group in s.groups
               then PutGroup(read, q.group, s.groups[q.group].(gate := Registered)) else read
    case TimeOut(id) =>
      && i.parent.holds && i.parent.waiting.Some?
      && s' == Put(s, id, i.(parent := i.parent.(waiting := None, timedOut := i.parent.timedOut + 1)))
    case OpenGate(id, g) =>
      && i.parent.holds && !i.parent.starting && g in s.groups && s.groups[g].owner == id
      && (s.groups[g].gate == Registered || (!rules.registerBeforeGate && s.groups[g].gate == Closed))
      && s' == PutGroup(s, g, s.groups[g].(gate := Opened))
    case Serve(id, out) =>
      && i.guardian.Serving? && i.parent.holds && i.requests != []
      && Handles(i.guardian.slots, i.requests[0], Living(s), out)
      && s' == Put(s, id, Answered(i, out))
    case EndOfFile(id) =>
      // seen only once the helper's end is closed and everything queued has been read
      && i.guardian.Serving? && !i.parent.holds && i.requests == []
      && s' == Put(s, id, i.(guardian := Draining(i.guardian.slots)))
    case ReplyFails(id, out) =>
      // the request is handled before its reply fails; what is queued behind it is never read
      && i.guardian.Serving? && !i.parent.holds && i.requests != []
      && Handles(i.guardian.slots, i.requests[0], Living(s), out)
      && s' == Put(s, id, i.(requests := [], guardian := if out.exits then Exited else Draining(out.slots)))
    case DrainEnds(id) =>
      && i.guardian.Draining?
      && (forall g :: g in i.guardian.slots && g > 1 ==> g !in Living(s))
      && s' == Put(s, id, i.(guardian := Exited))
    case Drop(id) =>
      && i.parent.holds && i.parent.releasing && i.parent.waiting == None
      && s' == Put(s, id, Close(i).(unlocked := i.unlocked || !rules.dropKeepsLock))
    case Crash(id) =>
      i.parent.holds && s' == Put(s, id, Close(i))
  }

  ghost predicate Next(rules: Rules, s: State, s': State) {
    exists step :: NextStep(rules, s, s', step)
  }

  ghost predicate Run(rules: Rules, run: seq<State>) {
    && run != [] && Init(run[0])
    && forall k :: 0 <= k < |run| - 1 ==> Next(rules, run[k], run[k + 1])
  }

  /**
   While a command whose gate was opened still has processes, its own acquisition keeps the
   lock, and nobody else has it; so no second acquisition can succeed.
   */
  ghost predicate Safe(s: State) {
    forall g :: g in s.groups && s.groups[g].gate == Opened && s.groups[g].alive ==>
      var id := s.groups[g].owner;
      && id in s.instances && Locked(s.instances[id])
      && forall j :: j in s.instances && Locked(s.instances[j]) ==> j == id
  }

  // ---- the inductive invariant under all three rules

  ghost predicate Covered(i: Instance, g: int) {
    !i.unlocked && (i.guardian.Serving? || i.guardian.Draining?) && g in i.guardian.slots
  }

  /** In the table, or about to be: the next request the guardian reads registers it, and a slot is free. */
  ghost predicate Guarded(i: Instance, g: int) {
    || Covered(i, g)
    || (!i.unlocked && i.guardian.Serving? && i.requests != [] && i.requests[0] == Register(g) && 0 in i.guardian.slots)
  }

  function Registrations(requests: seq<Request>): nat {
    if requests == [] then 0 else (if requests[0].Register? then 1 else 0) + Registrations(requests[1..])
  }

  /** Slots in use and registrations on their way are no more than the registrations sent. */
  ghost predicate Bounded(i: Instance) {
    i.guardian.Serving? ==> SLOT_COUNT - multiset(i.guardian.slots)[0] + Registrations(i.requests) <= i.parent.sent
  }

  /** Of the requests sent and not yet answered to the helper, the last is the one it waits for. */
  ghost predicate LastIs(i: Instance, q: Request) {
    if i.requests != [] then i.requests[|i.requests| - 1] == q
    else i.answers != [] && i.answers[|i.answers| - 1].request == q
  }

  ghost predicate AnswerHolds(i: Instance, a: Answer, living: set<int>) {
    a.request.Register? ==>
      && a.request.group > 1
      && (a.reply == Okay && a.request.group in living ==> Covered(i, a.request.group))
      && (a.reply != Okay ==> i.parent.sent > SLOT_COUNT)
  }

  /** The channel as the helper stands to it: one answer is missing for each request it gave up on. */
  ghost predicate InStep(i: Instance, living: set<int>) {
    if i.parent.starting then
      && i.parent.waiting == None && !i.parent.releasing && i.parent.timedOut == 0 && i.parent.sent == 0
      && i.requests == []
      && (i.answers == [] || (i.answers == [READY] && i.guardian.Serving?))
    else
      && |i.answers| + |i.requests| == i.parent.timedOut + (if i.parent.waiting.Some? then 1 else 0)
      && (i.parent.waiting.Some? ==> LastIs(i, i.parent.waiting.value))
      && (forall k :: 0 <= k < |i.answers| ==> AnswerHolds(i, i.answers[k], living))
      && (!i.parent.releasing ==> i.guardian.Serving? && Release !in i.requests)
  }

  ghost predicate InstanceInv(i: Instance, living: set<int>) {
    && (i.guardian.Serving? || i.guardian.Draining? ==> WellFormed(i.guardian.slots))
    && (i.guardian.Booting? ==> i.parent.starting)
    && (i.parent.starting ==> i.requests == [])
    && (i.guardian.Draining? ==> !i.parent.holds)
    && (i.unlocked ==> !i.parent.holds && i.guardian.Exited?)
    && (forall k :: 0 <= k < |i.requests| && i.requests[k].Register? ==> i.requests[k].group > 1)
    && (i.parent.waiting.Some? && i.parent.waiting.value.Register? ==>
          !i.parent.releasing && i.parent.timedOut <= 1 && (i.parent.timedOut > 0 ==> i.parent.sent <= SLOT_COUNT))
    && Bounded(i)
    && (i.parent.holds ==> InStep(i, living))
  }

  ghost predicate GroupInv(s: State, g: int)
    requires g in s.groups
  {
    var group := s.groups[g];
    && g > 1
    && group.owner in s.instances
    && !s.instances[group.owner].parent.starting
    && (group.gate != Closed && group.alive ==> Guarded(s.instances[group.owner], g))
  }

  /** Registrations on the channel are for groups that have been spawned. */
  ghost predicate Waits(s: State, id: nat)
    requires id in s.instances
  {
    var i := s.instances[id];
    && (i.parent.waiting.Some? && i.parent.waiting.value.Register? ==>
          i.parent.waiting.value.group in s.groups && s.groups[i.parent.waiting.value.group].owner == id)
    && (forall k :: 0 <= k < |i.requests| && i.requests[k].Register? ==> i.requests[k].group in s.groups)
    && (forall k :: 0 <= k < |i.answers| && i.answers[k].request.Register? ==> i.answers[k].request.group in s.groups)
  }

  ghost predicate Inv(s: State) {
    && (forall i, j :: i in s.instances && j in s.instances && Locked(s.instances[i]) && Locked(s.instances[j]) ==>
      i == j)
    && (forall i :: i in s.instances ==> InstanceInv(s.instances[i], Living(s)) && Waits(s, i))
    && (forall g :: g in s.groups ==> GroupInv(s, g))
  }

  lemma InvIsSafe(s: State)
    requires Inv(s)
    ensures Safe(s)
  {
    forall g | g in s.groups && s.groups[g].gate == Opened && s.groups[g].alive
      ensures var id := s.groups[g].owner;
              && id in s.instances && Locked(s.instances[id])
              && forall j :: j in s.instances && Locked(s.instances[j]) ==> j == id
    {
      assert GroupInv(s, g);
    }
  }

  /** Steps that change one instance and leave every group as it was. */
  lemma InstanceChange(s: State, id: nat, i: Instance)
    requires Inv(s) && id in s.instances
    requires InstanceInv(i, Living(s)) && Waits(Put(s, id, i), id)
    requires Locked(i) ==> Locked(s.instances[id])
    requires i.parent.starting ==> s.instances[id].parent.starting
    requires forall g :: g in Living(s) && s.groups[g].owner == id && s.groups[g].gate != Closed ==> Guarded(i, g)
    ensures Inv(Put(s, id, i))
  {
    hide InstanceInv, Guarded;
    var s' := Put(s, id, i);
    assert Living(s') == Living(s);
    forall g | g in s'.groups ensures GroupInv(s', g) {
      assert GroupInv(s, g);
    }
    forall j | j in s'.instances ensures InstanceInv(s'.instances[j], Living(s')) && Waits(s', j) {
      if j != id {
        assert InstanceInv(s.instances[j], Living(s)) && Waits(s, j);
      }
    }
  }

  lemma AcquireKeepsInv(s: State, id: nat)
    requires Inv(s) && id !in s.instances
    requires forall j :: j in s.instances ==> !Locked(s.instances[j])
    ensures Inv(Put(s, id, Fresh()))
  {
    var s' := Put(s, id, Fresh());
    assert Living(s') == Living(s);
    FreshInv(Living(s));
    hide InstanceInv, Guarded;
    forall g | g in s'.groups ensures GroupInv(s', g) {
      assert GroupInv(s, g);
    }
    forall j | j in s'.instances ensures InstanceInv(s'.instances[j], Living(s')) && Waits(s', j) {
      if j != id {
        assert InstanceInv(s.instances[j], Living(s)) && Waits(s, j);
      }
    }
  }

  lemma FreshInv(living: set<int>)
    ensures InstanceInv(Fresh(), living)
  {
  }

  /** Only the life of groups that the channel mentions matters. */
  lemma OtherLiving(i: Instance, living: set<int>, other: set<int>)
    requires InstanceInv(i, living)
    requires forall k ::
             0 <= k < |i.answers| && i.answers[k].request.Register? && i.answers[k].request.group in other ==>
               i.answers[k].request.group in living
    ensures InstanceInv(i, other)
  {
    hide Covered, LastIs, Bounded, WellFormed;
  }

  /** Steps that change one group and leave every instance as it was. */
  lemma GroupChange(s: State, g: int, group: Group)
    requires Inv(s) && g > 1
    requires g in s.groups ==> group.owner == s.groups[g].owner
    requires g !in s.groups ==>
               group.owner in s.instances && !s.instances[group.owner].parent.starting && group.gate == Closed
    requires g in s.groups && group.alive ==> s.groups[g].alive
    requires g in s.groups && group.gate != Closed && group.alive ==> Guarded(s.instances[group.owner], g)
    ensures Inv(PutGroup(s, g, group))
  {
    hide InstanceInv, Guarded;
    var s' := PutGroup(s, g, group);
    assert forall h :: h in s.groups && h in Living(s') ==> h in Living(s);
    forall h | h in s'.groups ensures GroupInv(s', h) {
      if h in s.groups {
        assert GroupInv(s, h);
      }
    }
    forall j | j in s'.instances ensures InstanceInv(s'.instances[j], Living(s')) && Waits(s', j) {
      assert InstanceInv(s.instances[j], Living(s)) && Waits(s, j);
      OtherLiving(s.instances[j], Living(s), Living(s'));
    }
  }

  // ---- serving a request

  /** A handled request leaves every guarded group that still lives in the table, and the guardian up. */
  lemma ServingKeepsGuarded(i: Instance, out: Served, living: set<int>, g: int)
    requires i.guardian.Serving? && WellFormed(i.guardian.slots) && i.requests != []
    requires Handles(i.guardian.slots, i.requests[0], living, out)
    requires g > 1 && g in living && Guarded(i, g)
    ensures g in out.slots && !out.exits
  {
    HandlingKeepsLiveGroups(i.guardian.slots, i.requests[0], living, out, g);
  }

  lemma {:induction false} FreeSlotsGrow(before: seq<int>, after: seq<int>)
    requires |before| == |after|
    requires forall k :: 0 <= k < |before| ==> after[k] == before[k] || after[k] == 0
    ensures multiset(after)[0] >= multiset(before)[0]
  {
    if before != [] {
      var n := |before| - 1;
      FreeSlotsGrow(before[..n], after[..n]);
      assert before == before[..n] + [before[n]] && after == after[..n] + [after[n]];
    }
  }

  lemma {:induction false} OneMoreRegistration(requests: seq<Request>, q: Request)
    ensures Registrations(requests + [q]) == Registrations(requests) + (if q.Register? then 1 else 0)
  {
    if requests == [] {
      assert requests + [q] == [q] && [q][1..] == [];
    } else {
      assert (requests + [q])[1..] == requests[1..] + [q];
      OneMoreRegistration(requests[1..], q);
    }
  }

  lemma ServingStaysBounded(i: Instance, out: Served, living: set<int>)
    requires i.guardian.Serving? && i.requests != [] && Bounded(i)
    requires Handles(i.guardian.slots, i.requests[0], living, out)
    requires i.requests[0].Register? ==> i.requests[0].group > 1
    ensures SLOT_COUNT - multiset(out.slots)[0] + Registrations(i.requests[1..]) <= i.parent.sent
    ensures i.requests[0].Register? && out.reply != Okay && WellFormed(i.guardian.slots) ==> i.parent.sent > SLOT_COUNT
  {
    var slots, q := i.guardian.slots, i.requests[0];
    if q.Register? {
      if 0 in slots {
        var k := FirstIndex(slots, 0).value;
        assert multiset(slots[k := q.group])[0] == multiset(slots)[0] - 1;
      } else {
        assert 0 !in multiset(slots);
      }
    } else {
      FreeSlotsGrow(slots, out.slots);
    }
  }

  lemma AnsweredInv(i: Instance, out: Served, living: set<int>)
    requires InstanceInv(i, living) && i.guardian.Serving? && i.parent.holds && i.requests != []
    requires Handles(i.guardian.slots, i.requests[0], living, out)
    ensures InstanceInv(Answered(i, out), living)
  {
    hide Handles, Registrations, WellFormed;
    var j, q := Answered(i, out), i.requests[0];
    ServingStaysBounded(i, out, living);
    HandlingKeepsLiveGroups(i.guardian.slots, q, living, out, 0);
    ExitsOnlyOnRelease(i.guardian.slots, q, living, out);
    forall k | 0 <= k < |j.answers| ensures AnswerHolds(j, j.answers[k], living) {
      if k < |i.answers| {
        assert AnswerHolds(i, i.answers[k], living);
        if i.answers[k].request.Register? {
          HandlingKeepsLiveGroups(i.guardian.slots, q, living, out, i.answers[k].request.group);
        }
      } else if q.Register? {
        HandlingKeepsLiveGroups(i.guardian.slots, q, living, out, q.group);
      }
    }
    assert i.requests[1..] != [] ==> i.requests[1..][|i.requests| - 2] == i.requests[|i.requests| - 1];
  }

  lemma ExitsOnlyOnRelease(slots: seq<int>, q: Request, living: set<int>, out: Served)
    requires Handles(slots, q, living, out)
    ensures out.exits ==> q == Release
  {
  }

  lemma ServeKeepsInv(s: State, id: nat, out: Served)
    requires Inv(s) && id in s.instances
    requires s.instances[id].guardian.Serving? && s.instances[id].parent.holds && s.instances[id].requests != []
    requires Handles(s.instances[id].guardian.slots, s.instances[id].requests[0], Living(s), out)
    ensures Inv(Put(s, id, Answered(s.instances[id], out)))
  {
    var i := s.instances[id];
    assert InstanceInv(i, Living(s)) && Waits(s, id);
    AnsweredInv(i, out, Living(s));
    forall g | g in Living(s) && s.groups[g].owner == id && s.groups[g].gate != Closed
      ensures Guarded(Answered(i, out), g) {
      assert GroupInv(s, g);
      ServingKeepsGuarded(i, out, Living(s), g);
    }
    InstanceChange(s, id, Answered(i, out));
  }

  lemma ReplyFailsKeepsInv(s: State, id: nat, out: Served)
    requires Inv(s) && id in s.instances
    requires s.instances[id].guardian.Serving? && !s.instances[id].parent.holds && s.instances[id].requests != []
    requires Handles(s.instances[id].guardian.slots, s.instances[id].requests[0], Living(s), out)
    ensures Inv(Put(s, id,
                    s.instances[id].(requests := [], guardian := if out.exits then Exited else Draining(out.slots))))
  {
    var i := s.instances[id];
    var j := i.(requests := [], guardian := if out.exits then Exited else Draining(out.slots));
    assert InstanceInv(i, Living(s)) && Waits(s, id);
    HandlingKeepsLiveGroups(i.guardian.slots, i.requests[0], Living(s), out, 0);
    forall g | g in Living(s) && s.groups[g].owner == id && s.groups[g].gate != Closed ensures Guarded(j, g) {
      assert GroupInv(s, g);
      ServingKeepsGuarded(i, out, Living(s), g);
    }
    InstanceChange(s, id, j);
  }

  // ---- reading an answer

  /**
   An answer taken for a registration's own guards the group, even if it is the late answer to the one
   request that was given up: then the registration is answered already, or it is next in line and a slot is free.
   */
  lemma AnswerMeansGuarded(i: Instance, living: set<int>, g: int)
    requires InstanceInv(i, living) && i.parent.holds && i.parent.waiting == Some(Register(g))
    requires i.answers != [] && i.answers[0].reply == Okay && g in living
    ensures Guarded(i, g)
  {
    hide WellFormed;
    if i.requests == [] {
      var last := |i.answers| - 1;
      assert AnswerHolds(i, i.answers[last], living) && i.answers[last].request == Register(g);
    } else {
      assert i.requests == [Register(g)];
      assert i.requests[1..] == [];
      assert multiset(i.guardian.slots)[0] > 0;
      assert 0 in multiset(i.guardian.slots);
    }
  }

  lemma ReadInv(i: Instance, living: set<int>)
    requires InstanceInv(i, living) && i.parent.holds && i.parent.waiting.Some? && i.answers != []
    ensures InstanceInv(Read(i), living)
  {
    hide WellFormed, Registrations;
    forall k | 0 <= k < |Read(i).answers| ensures AnswerHolds(Read(i), Read(i).answers[k], living) {
      assert AnswerHolds(i, i.answers[k + 1], living);
      assert Read(i).answers[k] == i.answers[k + 1];
    }
  }

  lemma ReadAnswerKeepsInv(rules: Rules, s: State, s': State, id: nat)
    requires Inv(s) && id in s.instances
    requires InstanceStep(rules, s, s', ReadAnswer(id), s.instances[id])
    ensures Inv(s')
  {
    hide InstanceInv, Guarded;
    var i := s.instances[id];
    assert InstanceInv(i, Living(s)) && Waits(s, id);
    ReadInv(i, Living(s));
    forall g | g in s.groups && Guarded(i, g) ensures Guarded(Read(i), g) {
      ReadingKeepsGuarded(i, g);
    }
    forall g | g in s.groups ensures GroupInv(s, g) {
    }
    InstanceChange(s, id, Read(i));
    var q, read := i.parent.waiting.value, Put(s, id, Read(i));
    if q.Register? && i.answers[0].reply == Okay && q.group in s.groups {
      assert GroupInv(s, q.group);
      if q.group in Living(s) {
        AnswerMeansGuarded(i, Living(s), q.group);
      }
      GroupChange(read, q.group, s.groups[q.group].(gate := Registered));
    }
  }

  lemma ReadingKeepsGuarded(i: Instance, g: int)
    requires i.answers != [] && Guarded(i, g)
    ensures Guarded(Read(i), g)
  {
  }

  // ---- the other steps

  lemma AskInv(i: Instance, q: Request, living: set<int>)
    requires InstanceInv(i, living) && Idle(i)
    requires q.Register? ==>
               q.group > 1 && i.parent.timedOut <= 1 && (i.parent.timedOut > 0 ==> i.parent.sent < SLOT_COUNT)
    ensures InstanceInv(Ask(i, q), living)
    ensures forall g :: Guarded(i, g) ==> Guarded(Ask(i, q), g)
  {
    hide WellFormed, Registrations;
    OneMoreRegistration(i.requests, q);
    forall k | 0 <= k < |i.answers| ensures AnswerHolds(Ask(i, q), i.answers[k], living) {
      assert AnswerHolds(i, i.answers[k], living);
    }
  }

  lemma AskKeepsInv(s: State, id: nat, q: Request)
    requires Inv(s) && id in s.instances && Idle(s.instances[id])
    requires q.Register? ==>
               && s.instances[id].parent.timedOut <= 1
               && (s.instances[id].parent.timedOut > 0 ==> s.instances[id].parent.sent < SLOT_COUNT)
               && q.group in s.groups && s.groups[q.group].owner == id
    ensures Inv(Put(s, id, Ask(s.instances[id], q)))
  {
    hide InstanceInv, Guarded;
    assert InstanceInv(s.instances[id], Living(s)) && Waits(s, id);
    assert q.Register? ==> GroupInv(s, q.group);
    AskInv(s.instances[id], q, Living(s));
    forall g | g in s.groups ensures GroupInv(s, g) {
    }
    InstanceChange(s, id, Ask(s.instances[id], q));
  }

  lemma GroupStepKeepsInv(rules: Rules, s: State, s': State, step: Step)
    requires Inv(s) && NextStep(rules, s, s', step) && rules.registerBeforeGate
    requires step.Spawn? || step.OpenGate? || step.GroupDies?
    ensures Inv(s')
  {
    hide InstanceInv, Guarded, Waits;
    if step.Spawn? {
      GroupChange(s, step.group, Group(step.id, Closed, true));
    } else {
      assert GroupInv(s, step.group);
      GroupChange(s, step.group, s'.groups[step.group]);
    }
  }

  lemma RequestStepKeepsInv(rules: Rules, s: State, s': State, step: Step)
    requires Inv(s) && NextStep(rules, s, s', step) && rules.timeouts <= 1
    requires step.SendRegister? || step.SendOther? || step.SendRelease? || step.Serve? || step.ReplyFails?
             || step.ReadAnswer?
    ensures Inv(s')
  {
    hide Inv, Handles;
    match step {
      case Serve(id, out) => ServeKeepsInv(s, id, out);
      case ReplyFails(id, out) => ReplyFailsKeepsInv(s, id, out);
      case ReadAnswer(id) => ReadAnswerKeepsInv(rules, s, s', id);
      case SendRegister(id, g) => AskKeepsInv(s, id, Register(g));
      case SendOther(id, q) => AskKeepsInv(s, id, q);
      case SendRelease(id) => AskKeepsInv(s, id, Release);
    }
  }

  lemma StepKeepsInv(rules: Rules, s: State, s': State, step: Step)
    requires Kept(rules) && Inv(s) && NextStep(rules, s, s', step)
    ensures Inv(s')
  {
    hide Inv, InstanceStep;
    if LocalStep(step) {
      LocalStepKeepsInv(rules, s, s', step);
    } else if step.Acquire? {
      AcquireKeepsInv(s, step.id);
    } else if step.Spawn? || step.OpenGate? || step.GroupDies? {
      GroupStepKeepsInv(rules, s, s', step);
    } else {
      RequestStepKeepsInv(rules, s, s', step);
    }
  }

  predicate LocalStep(step: Step) {
    || step.Boot? || step.BootFails? || step.ReadReady? || step.StartFails? || step.TimeOut?
    || step.EndOfFile? || step.DrainEnds? || step.Drop? || step.Crash?
  }

  lemma BootInv(i: Instance, living: set<int>)
    requires InstanceInv(i, living) && i.guardian.Booting?
    ensures InstanceInv(i.(guardian := Serving(EmptySlots()), answers := i.answers + [READY]), living)
  {
    hide Registrations, WellFormed, LastIs, AnswerHolds;
    AllSlotsFree();
    NoRegistrations();
    assert i.answers == [] ==> i.answers + [READY] == [READY];
  }

  lemma ReadReadyInv(i: Instance, living: set<int>)
    requires InstanceInv(i, living) && i.parent.holds && i.parent.starting && i.answers != []
    ensures InstanceInv(i.(answers := i.answers[1..], parent := i.parent.(starting := false)), living)
  {
    hide Registrations, WellFormed, LastIs, AnswerHolds;
    assert i.answers[1..] == [];
  }

  lemma TimeOutInv(i: Instance, living: set<int>)
    requires InstanceInv(i, living) && i.parent.holds && i.parent.waiting.Some?
    ensures InstanceInv(i.(parent := i.parent.(waiting := None, timedOut := i.parent.timedOut + 1)), living)
  {
    hide Registrations, WellFormed, LastIs;
  }

  /** The steps that touch one acquisition's processes only. */
  lemma LocalStepInv(rules: Rules, s: State, s': State, step: Step)
    requires Kept(rules) && LocalStep(step) && step.id in s.instances
    requires InstanceInv(s.instances[step.id], Living(s)) && NextStep(rules, s, s', step)
    ensures InstanceInv(s'.instances[step.id], Living(s))
  {
    hide Registrations, WellFormed, LastIs, InStep;
    var i := s.instances[step.id];
    if step.Boot? {
      BootInv(i, Living(s));
    } else if step.ReadReady? {
      ReadReadyInv(i, Living(s));
    } else if step.TimeOut? {
      TimeOutInv(i, Living(s));
    } else if step.BootFails? {
      BootFailsInv(i, Living(s));
    }
  }

  lemma BootFailsInv(i: Instance, living: set<int>)
    requires InstanceInv(i, living) && i.guardian.Booting?
    ensures InstanceInv(i.(guardian := Exited), living)
  {
    hide Registrations, WellFormed, LastIs, AnswerHolds;
  }

  lemma {:induction false} AllFreeCount(slots: seq<int>)
    requires AllFree(slots)
    ensures multiset(slots)[0] == |slots|
  {
    if slots != [] {
      var n := |slots| - 1;
      AllFreeCount(slots[..n]);
      assert slots == slots[..n] + [0];
    }
  }

  lemma AllSlotsFree()
    ensures multiset(EmptySlots())[0] == SLOT_COUNT && WellFormed(EmptySlots())
  {
    AllFreeCount(EmptySlots());
  }

  lemma NoRegistrations()
    ensures Registrations([]) == 0
  {
  }

  lemma LocalStepKeepsGuarded(rules: Rules, s: State, s': State, step: Step, g: int)
    requires Kept(rules) && LocalStep(step) && step.id in s.instances && NextStep(rules, s, s', step)
    requires !s.instances[step.id].parent.starting
    requires s.instances[step.id].guardian.Booting? ==> s.instances[step.id].parent.starting
    requires g > 1 && g in Living(s) && Guarded(s.instances[step.id], g)
    ensures Guarded(s'.instances[step.id], g)
  {
  }

  lemma LocalStepFrame(rules: Rules, s: State, s': State, step: Step)
    requires Kept(rules) && LocalStep(step) && NextStep(rules, s, s', step) && step.id in s.instances
    requires Waits(s, step.id)
    ensures step.id in s'.instances && s' == Put(s, step.id, s'.instances[step.id]) && Waits(s', step.id)
    ensures Locked(s'.instances[step.id]) ==> Locked(s.instances[step.id])
    ensures s'.instances[step.id].parent.starting ==> s.instances[step.id].parent.starting
  {
  }

  lemma LocalStepKeepsInv(rules: Rules, s: State, s': State, step: Step)
    requires Kept(rules) && Inv(s) && NextStep(rules, s, s', step) && LocalStep(step)
    ensures Inv(s')
  {
    hide NextStep, Guarded, InstanceInv, Waits, Locked;
    var id := step.id;
    StepOfInstance(rules, s, s', step);
    assert InstanceInv(s.instances[id], Living(s)) && Waits(s, id);
    BootingIsStarting(s.instances[id], Living(s));
    LocalStepInv(rules, s, s', step);
    LocalStepFrame(rules, s, s', step);
    forall g | g in Living(s) && s.groups[g].owner == id && s.groups[g].gate != Closed
      ensures Guarded(s'.instances[id], g) {
      assert GroupInv(s, g);
      LocalStepKeepsGuarded(rules, s, s', step, g);
    }
    InstanceChange(s, id, s'.instances[id]);
  }

  lemma StepOfInstance(rules: Rules, s: State, s': State, step: Step)
    requires NextStep(rules, s, s', step) && LocalStep(step)
    ensures step.id in s.instances
  {
  }

  lemma BootingIsStarting(i: Instance, living: set<int>)
    requires InstanceInv(i, living)
    ensures i.guardian.Booting? ==> i.parent.starting
  {
  }

  lemma {:induction false} RunKeepsInv(rules: Rules, run: seq<State>, k: nat)
    requires Kept(rules) && Run(rules, run) && k < |run|
    ensures Inv(run[k])
  {
    hide Inv, NextStep;
    if k > 0 {
      RunKeepsInv(rules, run, k - 1);
      assert Next(rules, run[k - 1], run[k - 1 + 1]);
      var step :| NextStep(rules, run[k - 1], run[k], step);
      StepKeepsInv(rules, run[k - 1], run[k], step);
    } else {
      InitInv(run[0]);
    }
  }

  lemma InitInv(s: State)
    requires Init(s)
    ensures Inv(s)
  {
  }

  ghost predicate Reachable(rules: Rules, s: State) {
    exists run :: Run(rules, run) && run[|run| - 1] == s
  }

  /**
   Every reachable state is safe when the rules are kept, whatever dies and whatever is delayed; this
   includes the runs that go on after one unanswered request, as a switch does after its listing.
   */
  lemma DisciplinedRunsAreSafe(rules: Rules, s: State)
    requires Kept(rules) && Reachable(rules, s)
    ensures Safe(s)
  {
    hide Inv, Next, Safe;
    var run :| Run(rules, run) && run[|run| - 1] == s;
    RunKeepsInv(rules, run, |run| - 1);
    InvIsSafe(s);
  }

  /** No two acquisitions ever have commands running at the same time. */
  lemma CommandsAreExclusive(rules: Rules, s: State, g: int, h: int)
    requires Kept(rules) && Reachable(rules, s)
    requires g in s.groups && s.groups[g].gate == Opened && s.groups[g].alive
    requires h in s.groups && s.groups[h].gate == Opened && s.groups[h].alive
    ensures s.groups[g].owner == s.groups[h].owner
    ensures forall id: nat, s' :: !NextStep(rules, s, s', Acquire(id))
  {
    DisciplinedRunsAreSafe(rules, s);
  }

  // ---- each rule is needed

  lemma Reach(rules: Rules, s: State, s': State, step: Step)
    requires Reachable(rules, s) && NextStep(rules, s, s', step)
    ensures Reachable(rules, s')
  {
    hide NextStep, Init;
    var run :| Run(rules, run) && run[|run| - 1] == s;
    var run' := run + [s'];
    forall k | 0 <= k < |run'| - 1 ensures Next(rules, run'[k], run'[k + 1]) {
      if k < |run| - 1 {
        assert Next(rules, run[k], run[k + 1]);
      } else {
        assert run'[k] == s && run'[k + 1] == s';
      }
    }
    assert run'[|run'| - 1] == s';
  }

  /** A helper that has acquired the lock, started its guardian and sent `sent` registrations; no request is open. */
  function Quiet(slots: seq<int>, sent: nat): Instance {
    Instance(Parent(true, false, None, false, 0, sent), Serving(slots), [], [], false)
  }

  function Started(): State {
    State(map[0 := Quiet(EmptySlots(), 0)], map[])
  }

  lemma StartedIsReachable(rules: Rules)
    ensures Reachable(rules, Started())
  {
    hide Reachable;
    NothingIsReachable(rules);
    var s0 := State(map[], map[]);
    var s1 := Put(s0, 0, Fresh());
    Reach(rules, s0, s1, Acquire(0));
    var s2 := Put(s1, 0, Fresh().(guardian := Serving(EmptySlots()), answers := [] + [READY]));
    Reach(rules, s1, s2, Boot(0));
    var s3 := Put(s2, 0,
                  s2.instances[0].(answers := s2.instances[0].answers[1..],
                                   parent := Fresh().parent.(starting := false)));
    Reach(rules, s2, s3, ReadReady(0));
    assert s3.instances[0].answers == [];
    assert s3.instances == Started().instances;
  }

  lemma NothingIsReachable(rules: Rules)
    ensures Reachable(rules, State(map[], map[]))
  {
    var s0 := State(map[], map[]);
    assert Run(rules, [s0]);
    assert [s0][|[s0]| - 1] == s0;
  }

  /** A request, its handling and the reading of its answer, on a channel with nothing else on it. */
  lemma Exchange(rules: Rules, s: State, slots: seq<int>, sent: nat, q: Request, out: Served) returns (s': State)
    requires Reachable(rules, s) && 0 in s.instances && s.instances[0] == Quiet(slots, sent)
    requires Handles(slots, q, Living(s), out) && !out.exits
    requires q.Register? ==> q.group in s.groups && s.groups[q.group].owner == 0 && s.groups[q.group].gate == Closed
    ensures Reachable(rules, s')
    ensures var asked := Ask(Quiet(out.slots, sent), q);
            s'.instances == s.instances[0 := asked.(requests := [], parent := asked.parent.(waiting := None))]
    ensures s'.groups == if q.Register? && out.reply == Okay
                         then s.groups[q.group := s.groups[q.group].(gate := Registered)]
                         else s.groups
  {
    hide Reachable, Handles;
    var asked := Ask(Quiet(slots, sent), q);
    var s1 := Put(s, 0, asked);
    Reach(rules, s, s1, if q.Register? then SendRegister(0, q.group) else if q.Release? then SendRelease(0)
      else SendOther(0, q));
    assert asked.requests == [q] && asked.requests[1..] == [];
    assert Living(s1) == Living(s);
    var answered := Answered(asked, out);
    var s2 := Put(s1, 0, answered);
    Reach(rules, s1, s2, Serve(0, out));
    assert answered.answers == [Answer(q, out.reply)] && answered.answers[1..] == [];
    var read := Put(s2, 0, Read(answered));
    s' := if q.Register? && out.reply == Okay then PutGroup(read, q.group, s.groups[q.group].(gate := Registered))
      else read;
    Reach(rules, s2, s', ReadAnswer(0));
  }

  /** `Started` with group 2 spawned, registered and let through its gate. */
  function Running(): State {
    State(map[0 := Quiet(EmptySlots()[0 := 2], 1)], map[2 := Group(0, Opened, true)])
  }

  lemma RunningIsReachable(rules: Rules)
    ensures Reachable(rules, Running())
  {
    hide Reachable;
    StartedIsReachable(rules);
    var s1 := PutGroup(Started(), 2, Group(0, Closed, true));
    Reach(rules, Started(), s1, Spawn(0, 2));
    FirstIndexIs(EmptySlots(), 0, 0);
    ServingIsHandling(EmptySlots(), Register(2), Living(s1), Served(EmptySlots()[0 := 2], Okay, false));
    var s2 := Exchange(rules, s1, EmptySlots(), 0, Register(2), Served(EmptySlots()[0 := 2], Okay, false));
    var s3 := PutGroup(s2, 2, Group(0, Opened, true));
    Reach(rules, s2, s3, OpenGate(0, 2));
    assert s3.instances == Running().instances && s3.groups == Running().groups;
  }

  /** Opening the gate first: the helper dies, its guardian never hears of the group and lets go. */
  lemma GateBeforeRegistrationIsUnsafe(rules: Rules) returns (s: State)
    requires !rules.registerBeforeGate
    ensures Reachable(rules, s) && !Safe(s)
  {
    hide Reachable;
    StartedIsReachable(rules);
    var i := Quiet(EmptySlots(), 0);
    var s1 := PutGroup(Started(), 2, Group(0, Closed, true));
    Reach(rules, Started(), s1, Spawn(0, 2));
    var s2 := PutGroup(s1, 2, Group(0, Opened, true));
    Reach(rules, s1, s2, OpenGate(0, 2));
    var s3 := Put(s2, 0, Close(i));
    Reach(rules, s2, s3, Crash(0));
    var s4 := Put(s3, 0, Close(i).(guardian := Draining(EmptySlots())));
    Reach(rules, s3, s4, EndOfFile(0));
    s := Put(s4, 0, Close(i).(guardian := Exited));
    Reach(rules, s4, s, DrainEnds(0));
    assert s.groups[2] == Group(0, Opened, true);
  }

  /** LOCK_UN in `Drop`: a group has survived its completion and the release, and the guardian's lock is gone. */
  lemma UnlockOnDropIsUnsafe(rules: Rules) returns (s: State)
    requires !rules.dropKeepsLock
    ensures Reachable(rules, s) && !Safe(s)
  {
    hide Reachable;
    RunningIsReachable(rules);
    var slots := EmptySlots()[0 := 2];
    FirstIndexIs(slots, 2, 0);
    assert CompleteIn(slots, 2, false) == (slots, Busy);
    ServingIsHandling(slots, Complete(2), Living(Running()), Served(slots, Busy, false));
    var s1 := Exchange(rules, Running(), slots, 1, Complete(2), Served(slots, Busy, false));
    assert s1.instances[0] == Quiet(slots, 1);
    assert slots[0] != 0 && Swept(slots, slots, Living(s1), Living(s1));
    ServingIsHandling(slots, Release, Living(s1), Served(slots, Busy, false));
    var s2 := Exchange(rules, s1, slots, 1, Release, Served(slots, Busy, false));
    s := Put(s2, 0, Close(s2.instances[0]).(unlocked := true));
    Reach(rules, s2, s, Drop(0));
    assert s.groups[2] == Group(0, Opened, true);
  }

  /** The completion of group 2 has been sent and given up. */
  function OneBehind(): Instance {
    Instance(Parent(true, false, None, false, 1, 1), Serving(EmptySlots()[0 := 2]), [Complete(2)], [], false)
  }

  lemma OneBehindIsReachable(rules: Rules)
    ensures Reachable(rules, State(map[0 := OneBehind()], map[2 := Group(0, Opened, true)]))
  {
    hide Reachable;
    RunningIsReachable(rules);
    var i1 := Ask(Running().instances[0], Complete(2));
    var s1 := Put(Running(), 0, i1);
    Reach(rules, Running(), s1, SendOther(0, Complete(2)));
    assert i1.requests == [Complete(2)];
    var s2 := Put(s1, 0, OneBehind());
    Reach(rules, s1, s2, TimeOut(0));
    assert s2.instances == map[0 := OneBehind()];
  }

  /** One more group is spawned and its registration sent. */
  lemma RegistrationIsSent(rules: Rules, s: State, i: Instance, g: int) returns (s': State)
    requires Reachable(rules, s) && s.instances == map[0 := i] && Idle(i) && g > 1 && g !in s.groups
    requires 0 < i.parent.timedOut <= rules.timeouts && i.parent.sent < SLOT_COUNT
    ensures Reachable(rules, s') && s'.instances == map[0 := Ask(i, Register(g))]
    ensures s'.groups == s.groups[g := Group(0, Closed, true)]
  {
    hide Reachable;
    var s1 := PutGroup(s, g, Group(0, Closed, true));
    Reach(rules, s, s1, Spawn(0, g));
    s' := Put(s1, 0, Ask(i, Register(g)));
    Reach(rules, s1, s', SendRegister(0, g));
  }

  /**
   One request behind is a real state of the shipped program, and safe although the helper is deceived: the answer
   to the given-up completion opens the gate of group 3 while its registration is still on its way.
   */
  lemma StaleAnswerOpensGateSafely() returns (s: State)
    ensures Reachable(SHIPPED, s) && Safe(s)
    ensures 0 in s.instances && 3 in s.groups && s.groups[3] == Group(0, Opened, true)
    ensures s.instances[0].guardian == Serving(EmptySlots()) && s.instances[0].requests == [Register(3)]
  {
    hide Reachable, Safe;
    OneBehindIsReachable(SHIPPED);
    var behind := State(map[0 := OneBehind()], map[2 := Group(0, Opened, true)]);
    var s0 := RegistrationIsSent(SHIPPED, behind, OneBehind(), 3);
    assert Ask(OneBehind(), Register(3)).requests == [Complete(2)] + [Register(3)];
    s := StaleAnswerIsTaken(SHIPPED, s0, Ask(OneBehind(), Register(3)), [Register(3)], 3);
    DisciplinedRunsAreSafe(SHIPPED, s);
  }

  /** Group 2 ends, its completion is answered at last, and the helper takes the answer for group `g`'s registration. */
  lemma StaleAnswerIsTaken(rules: Rules, s: State, i: Instance, rest: seq<Request>, g: int) returns (s': State)
    requires Reachable(rules, s) && s.instances == map[0 := i] && 2 in s.groups && g in s.groups && g != 2
    requires s.groups[2] == Group(0, Opened, true) && s.groups[g] == Group(0, Closed, true)
    requires i.parent.holds && !i.parent.starting && i.parent.waiting == Some(Register(g))
    requires i.guardian == Serving(EmptySlots()[0 := 2]) && i.requests == [Complete(2)] + rest && i.answers == []
    ensures Reachable(rules, s') && s'.groups == s.groups[2 := Group(0, Opened, false)][g := Group(0, Opened, true)]
    ensures s'.instances
            == map[0 := i.(requests := rest, guardian := Serving(EmptySlots()), parent := i.parent.(waiting := None))]
  {
    hide Reachable, Handles;
    var i1, s1 := CompletionIsServed(rules, s, i, rest);
    var s2 := PutGroup(Put(s1, 0, Read(i1)), g, Group(0, Registered, true));
    Reach(rules, s1, s2, ReadAnswer(0));
    s' := PutGroup(s2, g, Group(0, Opened, true));
    Reach(rules, s2, s', OpenGate(0, g));
    assert Read(i1).answers == [];
  }

  lemma CompletionIsServed(rules: Rules, s: State, i: Instance, rest: seq<Request>) returns (i': Instance, s': State)
    requires Reachable(rules, s) && s.instances == map[0 := i] && 2 in s.groups && s.groups[2] == Group(0, Opened, true)
    requires i.parent.holds && i.guardian == Serving(EmptySlots()[0 := 2]) && i.requests == [Complete(2)] + rest
    requires i.answers == []
    ensures i' == i.(requests := rest, answers := [Answer(Complete(2), Okay)], guardian := Serving(EmptySlots()))
    ensures Reachable(rules, s') && s'.instances == map[0 := i'] && s'.groups == s.groups[2 := Group(0, Opened, false)]
  {
    hide Reachable, Handles;
    var s1 := PutGroup(s, 2, Group(0, Opened, false));
    Reach(rules, s, s1, GroupDies(2));
    CompletionFreesTable(Living(s1));
    i' := Answered(i, Served(EmptySlots(), Okay, false));
    s' := Put(s1, 0, i');
    Reach(rules, s1, s', Serve(0, Served(EmptySlots(), Okay, false)));
    assert i'.requests == rest;
  }

  /** Group 2 alone in the table and gone: its completion is acknowledged and empties the table. */
  lemma CompletionFreesTable(living: set<int>)
    requires 2 !in living
    ensures Handles(EmptySlots()[0 := 2], Complete(2), living, Served(EmptySlots(), Okay, false))
  {
    FirstIndexIs(EmptySlots()[0 := 2], 2, 0);
    assert EmptySlots()[0 := 2][0 := 0] == EmptySlots();
    assert CompleteIn(EmptySlots()[0 := 2], 2, true) == (EmptySlots(), Okay);
    ServingIsHandling(EmptySlots()[0 := 2], Complete(2), living, Served(EmptySlots(), Okay, false));
  }

  /**
   Two requests given up, the completion of group 2 and the registration of group 3, and group 4 asking to be
   registered.
   */
  function TwoBehind(): Instance {
    Instance(Parent(true, false, Some(Register(4)), false, 2, 3), Serving(EmptySlots()[0 := 2]),
             [Complete(2), Register(3), Register(4)], [], false)
  }

  lemma TwoBehindIsReachable(rules: Rules) returns (s: State)
    requires rules.timeouts >= 2
    ensures Reachable(rules, s) && s.instances == map[0 := TwoBehind()]
    ensures s.groups == map[2 := Group(0, Opened, true), 3 := Group(0, Closed, true), 4 := Group(0, Closed, true)]
  {
    hide Reachable;
    OneBehindIsReachable(rules);
    var s1 := RegistrationIsSent(rules, State(map[0 := OneBehind()], map[2 := Group(0, Opened, true)]), OneBehind(), 3);
    var i1 := Ask(OneBehind(), Register(3));
    assert i1.requests == [Complete(2), Register(3)];
    var i2 := i1.(parent := i1.parent.(waiting := None, timedOut := 2));
    var s2 := Put(s1, 0, i2);
    Reach(rules, s1, s2, TimeOut(0));
    assert s2.instances == map[0 := i2];
    s := RegistrationIsSent(rules, s2, i2, 4);
    assert Ask(i2, Register(4)).requests == [Complete(2), Register(3), Register(4)];
  }

  /**
   Two requests behind, the answer to the first one is taken for the third one's: its group runs while
   the second still stands before it in the queue. The helper dies, the reply to the second fails, and
   the registration behind it is never read.
   */
  lemma RegisterAfterTwoTimeoutsIsUnsafe(rules: Rules) returns (s: State)
    requires rules.timeouts >= 2
    ensures Reachable(rules, s) && !Safe(s)
  {
    hide Reachable;
    var s0 := TwoBehindIsReachable(rules);
    assert TwoBehind().requests == [Complete(2)] + [Register(3), Register(4)];
    var s1 := StaleAnswerIsTaken(rules, s0, TwoBehind(), [Register(3), Register(4)], 4);
    s := LostRegistration(rules, s1, s1.instances[0]);
  }

  lemma LostRegistration(rules: Rules, s: State, i: Instance) returns (s': State)
    requires Reachable(rules, s) && s.instances == map[0 := i]
    requires i.parent.holds && !i.parent.starting && i.guardian == Serving(EmptySlots())
    requires i.requests == [Register(3), Register(4)]
    requires s.groups == map[2 := Group(0, Opened, false), 3 := Group(0, Closed, true), 4 := Group(0, Opened, true)]
    ensures Reachable(rules, s') && !Safe(s')
  {
    hide Reachable;
    var s1 := Put(s, 0, Close(i));
    Reach(rules, s, s1, Crash(0));
    var s2 := PutGroup(s1, 3, Group(0, Closed, false));
    Reach(rules, s1, s2, GroupDies(3));
    s' := GuardianLetsGo(rules, s2, Close(i));
    assert s'.groups[4] == Group(0, Opened, true);
  }

  /** The reply to group 3's registration fails; with that group gone the guardian exits. */
  lemma GuardianLetsGo(rules: Rules, s: State, i: Instance) returns (s': State)
    requires Reachable(rules, s) && s.instances == map[0 := i] && 3 in s.groups && !s.groups[3].alive
    requires !i.parent.holds && i.guardian == Serving(EmptySlots()) && i.requests == [Register(3), Register(4)]
    ensures Reachable(rules, s') && s'.groups == s.groups && 0 in s'.instances && !Locked(s'.instances[0])
  {
    hide Reachable;
    var slots := EmptySlots()[0 := 3];
    FirstIndexIs(EmptySlots(), 0, 0);
    var s1 := Put(s, 0, i.(requests := [], guardian := Draining(slots)));
    ServingIsHandling(EmptySlots(), Register(3), Living(s), Served(slots, Okay, false));
    Reach(rules, s, s1, ReplyFails(0, Served(slots, Okay, false)));
    s' := Put(s1, 0, i.(requests := [], guardian := Exited));
    Reach(rules, s1, s', DrainEnds(0));
  }

  /**
   The lock protects running commands exactly when gates wait, drops do not unlock, and at most one request
   may have gone unanswered.
   */
  lemma SafeExactlyWithAllRules(rules: Rules)
    ensures (forall s :: Reachable(rules, s) ==> Safe(s)) <==> Kept(rules)
  {
    hide Reachable, Safe;
    if Kept(rules) {
      forall s | Reachable(rules, s) ensures Safe(s) {
        DisciplinedRunsAreSafe(rules, s);
      }
    } else if !rules.registerBeforeGate {
      var s := GateBeforeRegistrationIsUnsafe(rules);
    } else if !rules.dropKeepsLock {
      var s := UnlockOnDropIsUnsafe(rules);
    } else {
      var s := RegisterAfterTwoTimeoutsIsUnsafe(rules);
    }
  }
}
