/** The AVRC metadata queue: one callback that duplicates strings into a bounded queue, one task that takes
    them out, hands them to the emulator and frees them. Each queue operation and each `free` is a step. */
module Avrc {
  import opened Config
  import opened Ownership
  import opened Subsequence
  import opened Turns

  datatype Attribute = Title | Artist | Album | PlayingTime | Unhandled(id: byte)
  datatype CString = NullText | Text(text: string)
  datatype Item = Item(id: Attribute, text: string)

  datatype Pointer = Null | To(address: Address)
  datatype Metadata = Metadata(id: Attribute, payload: Pointer)

  datatype CallbackAt = Returned | Sending(msg: Metadata) | Discarding(msg: Metadata)
  datatype TaskAt = Blocked | Handling(msg: Metadata) | Freeing(msg: Metadata)

  /** `memory[a]` is the text `strdup` copied into `a`, `live` what is not yet freed, `fault` a double free or
      a use after free. History: items duplicated, items queued, items the task took up, items it passed on. */
  datatype State = State(
    callbackAt: CallbackAt,
    taskAt: TaskAt,
    queue: seq<Metadata>,
    memory: seq<string>,
    live: set<Address>,
    fault: bool,
    offered: seq<Item>,
    queued: seq<Item>,
    handled: seq<Item>,
    updates: seq<Item>)

  const INIT := State(Returned, Blocked, [], [], {}, false, [], [], [], [])

  function Free(s: State, msg: Metadata): State {
    if msg.payload.To? && msg.payload.address in s.live
    then s.(live := s.live - {msg.payload.address}) else s.(fault := true)
  }

  function TextAt(memory: seq<string>, msg: Metadata): string {
    if msg.payload.To? && msg.payload.address < |memory| then memory[msg.payload.address] else ""
  }

  function ItemOf(memory: seq<string>, msg: Metadata): Item {
    Item(msg.id, TextAt(memory, msg))
  }

  /** Two guards come before the `strdup`: no null text, and an empty one only for the playing time. */
  predicate Admitted(id: Attribute, text: CString) {
    text.Text? && (id.PlayingTime? || text.text != "")
  }

  /** `Callback`: the stack calls back, and `strdup` succeeds or not. `CallbackRun`, `TaskRun`: the callback or
      the task takes its next step. */
  datatype Label = Callback(id: Attribute, text: CString, duplicated: bool) | CallbackRun | TaskRun

  function CallbackStep(s: State): State {
    match s.callbackAt
    case Returned => s
    case Sending(msg) =>
      if |s.queue| < AVRC_QUEUE_SIZE
      then s.(queue := s.queue + [msg], queued := s.queued + [ItemOf(s.memory, msg)], callbackAt := Returned)
      else s.(callbackAt := Discarding(msg))
    case Discarding(msg) => Free(s, msg).(callbackAt := Returned)
  }

  function TaskStep(s: State): State {
    match s.taskAt
    case Blocked =>
      if s.queue == [] then s else s.(queue := s.queue[1..], taskAt := Handling(s.queue[0]))
    case Handling(msg) =>
      if msg.payload.Null? then s.(taskAt := Blocked)
      else if msg.payload.address !in s.live then s.(fault := true)
      else
        var item := ItemOf(s.memory, msg);
        s.(taskAt := Freeing(msg), handled := s.handled + [item], updates := s.updates + Known([item]))
    case Freeing(msg) => Free(s, msg).(taskAt := Blocked)
  }

  function Next(s: State, l: Label): State {
    match l
    case Callback(id, text, duplicated) =>
      if s.callbackAt.Returned? && Admitted(id, text) && duplicated then
        s.(memory := s.memory + [text.text], live := s.live + {|s.memory|},
           offered := s.offered + [Item(id, text.text)], callbackAt := Sending(Metadata(id, To(|s.memory|))))
      else s
    case CallbackRun => CallbackStep(s)
    case TaskRun => TaskStep(s)
  }

  function Exec(s: State, labels: seq<Label>): State {
    if labels == [] then s else Next(Exec(s, labels[..|labels| - 1]), labels[|labels| - 1])
  }

  /** The items the task has a case for. */
  function Known(items: seq<Item>): seq<Item> {
    if items == [] then []
    else Known(items[..|items| - 1]) + if items[|items| - 1].id.Unhandled? then [] else [items[|items| - 1]]
  }

  // ---- Ownership ----

  predicate Points(msg: Metadata, a: Address) {
    msg.payload == To(a)
  }

  function One(msg: Metadata, a: Address): nat {
    if Points(msg, a) then 1 else 0
  }

  function CallbackHolds(at: CallbackAt, a: Address): nat {
    if at.Returned? then 0 else One(at.msg, a)
  }

  function TaskHolds(at: TaskAt, a: Address): nat {
    if at.Blocked? then 0 else One(at.msg, a)
  }

  function Places(s: State, a: Address): nat {
    Held(s.queue, Points, a) + CallbackHolds(s.callbackAt, a) + TaskHolds(s.taskAt, a)
  }

  /** A string is in exactly one place until it is freed, and in none afterwards. */
  predicate Accounted(s: State, a: Address) {
    Places(s, a) == (if a in s.live then 1 else 0) && (a in s.live ==> a < |s.memory|)
  }

  /** A queued or held message: never null, and empty only for the playing time. */
  predicate GoodMessage(memory: seq<string>, msg: Metadata) {
    && msg.payload.To? && msg.payload.address < |memory|
    && (msg.id.PlayingTime? || memory[msg.payload.address] != "")
  }

  predicate WellFormed(s: State) {
    && |s.queue| <= AVRC_QUEUE_SIZE
    && (forall i :: 0 <= i < |s.queue| ==> GoodMessage(s.memory, s.queue[i]))
    && (s.callbackAt.Returned? || GoodMessage(s.memory, s.callbackAt.msg))
    && (s.taskAt.Blocked? || GoodMessage(s.memory, s.taskAt.msg))
  }

  ghost predicate Safe(s: State) {
    WellFormed(s) && !s.fault && forall a :: Accounted(s, a)
  }

  lemma CallbackAccounted(s: State, l: Label, a: Address)
    requires Safe(s) && !l.TaskRun?
    ensures Accounted(Next(s, l), a) && !Next(s, l).fault
  {
    assert Accounted(s, a);
    if l.CallbackRun? && !s.callbackAt.Returned? {
      HeldPush(s.queue, s.callbackAt.msg, Points, a);
      assert Accounted(s, s.callbackAt.msg.payload.address);
    }
  }

  lemma TaskAccounted(s: State, a: Address)
    requires Safe(s)
    ensures Accounted(TaskStep(s), a) && !TaskStep(s).fault
  {
    assert Accounted(s, a);
    if !s.taskAt.Blocked? {
      assert Accounted(s, s.taskAt.msg.payload.address);
    }
  }

  lemma NextWellFormed(s: State, l: Label)
    requires WellFormed(s)
    ensures WellFormed(Next(s, l))
  {
  }

  lemma NextSafe(s: State, l: Label)
    requires Safe(s)
    ensures Safe(Next(s, l))
  {
    NextWellFormed(s, l);
    forall a ensures Accounted(Next(s, l), a) && !Next(s, l).fault {
      if l.TaskRun? { TaskAccounted(s, a); } else { CallbackAccounted(s, l, a); }
    }
    if l.TaskRun? { TaskAccounted(s, 0); } else { CallbackAccounted(s, l, 0); }
  }

  // ---- Order ----

  function Items(memory: seq<string>, queue: seq<Metadata>): seq<Item> {
    seq(|queue|, i requires 0 <= i < |queue| => ItemOf(memory, queue[i]))
  }

  function TaskHand(memory: seq<string>, at: TaskAt): seq<Item> {
    if at.Handling? then [ItemOf(memory, at.msg)] else []
  }

  function CallbackHand(memory: seq<string>, at: CallbackAt): seq<Item> {
    if at.Sending? then [ItemOf(memory, at.msg)] else []
  }

  /** The queue loses nothing, the task passes on what it knows, the callback drops only whole items. */
  ghost predicate InOrder(s: State) {
    && s.queued == s.handled + (TaskHand(s.memory, s.taskAt) + Items(s.memory, s.queue))
    && s.updates == Known(s.handled)
    && IsSubsequence(s.queued + CallbackHand(s.memory, s.callbackAt), s.offered)
  }

  lemma ItemsStable(memory: seq<string>, more: string, queue: seq<Metadata>)
    requires forall i :: 0 <= i < |queue| ==> GoodMessage(memory, queue[i])
    ensures Items(memory + [more], queue) == Items(memory, queue)
  {
  }

  lemma KnownSnoc(items: seq<Item>, item: Item)
    ensures Known(items + [item]) == Known(items) + Known([item])
  {
    assert (items + [item])[..|items|] == items;
    assert Known([item][..0]) == [];
  }

  lemma CallOrder(s: State, l: Label)
    requires Safe(s) && InOrder(s) && l.Callback?
    ensures InOrder(Next(s, l))
  {
    var t := Next(s, l);
    if t != s {
      ItemsStable(s.memory, l.text.text, s.queue);
      assert TaskHand(t.memory, t.taskAt) == TaskHand(s.memory, s.taskAt);
      assert CallbackHand(t.memory, t.callbackAt) == [Item(l.id, l.text.text)];
      assert s.queued + CallbackHand(s.memory, s.callbackAt) == s.queued;
      Extend(s.queued, s.offered, [Item(l.id, l.text.text)]);
    }
  }

  lemma ItemsPush(memory: seq<string>, queue: seq<Metadata>, msg: Metadata)
    ensures Items(memory, queue + [msg]) == Items(memory, queue) + [ItemOf(memory, msg)]
  {
  }

  lemma SendOrder(s: State)
    requires Safe(s) && InOrder(s)
    ensures InOrder(CallbackStep(s))
  {
    hide Safe, Known, ItemOf, Items;
    if s.callbackAt.Sending? {
      var msg := s.callbackAt.msg;
      var item := ItemOf(s.memory, msg);
      ItemsPush(s.memory, s.queue, msg);
      assert s.queued + [item] + [] == s.queued + [item];
      assert s.queued + [] == s.queued;
      Prefix(s.queued, [item], s.offered);
    }
  }

  lemma HandlingOrder(s: State)
    requires Safe(s) && InOrder(s) && s.taskAt.Handling?
    ensures InOrder(TaskStep(s))
  {
    var msg := s.taskAt.msg;
    assert Accounted(s, msg.payload.address) && Places(s, msg.payload.address) >= 1;
    KnownSnoc(s.handled, ItemOf(s.memory, msg));
    hide Known, Items, ItemOf, Safe;
    assert s.handled + ([ItemOf(s.memory, msg)] + Items(s.memory, s.queue))
           == s.handled + [ItemOf(s.memory, msg)] + ([] + Items(s.memory, s.queue));
  }

  lemma TaskOrder(s: State)
    requires Safe(s) && InOrder(s)
    ensures InOrder(TaskStep(s))
  {
    match s.taskAt {
      case Blocked =>
        if s.queue != [] {
          assert Items(s.memory, s.queue) == [ItemOf(s.memory, s.queue[0])] + Items(s.memory, s.queue[1..]);
        }
      case Handling(msg) => HandlingOrder(s);
      case Freeing(msg) =>
    }
  }

  // ---- Runs ----

  lemma {:induction false} RunInvariant(labels: seq<Label>)
    ensures Safe(Exec(INIT, labels)) && InOrder(Exec(INIT, labels))
    decreases |labels|
  {
    hide Next, InOrder, Safe;
    if labels == [] {
      InitInvariant();
    } else {
      var front, l := labels[..|labels| - 1], labels[|labels| - 1];
      RunInvariant(front);
      NextSafe(Exec(INIT, front), l);
      NextInOrder(Exec(INIT, front), l);
    }
  }

  lemma InitInvariant()
    ensures Safe(INIT) && InOrder(INIT)
  {
    Reflexive<Item>([]);
  }

  lemma NextInOrder(s: State, l: Label)
    requires Safe(s) && InOrder(s)
    ensures InOrder(Next(s, l))
  {
    hide InOrder, Safe;
    match l {
      case Callback(_, _, _) => CallOrder(s, l);
      case CallbackRun => SendOrder(s);
      case TaskRun => TaskOrder(s);
    }
  }

  /** Each duplicated string is freed at most once, not touched afterwards, and until then in exactly one of
      the queue, the callback's hand and the task's hand. */
  lemma {:induction false} StringsConserved(labels: seq<Label>, a: Address)
    ensures var s := Exec(INIT, labels);
            && !s.fault
            && (a in s.live ==> a < |s.memory| && Places(s, a) == 1)
            && (a !in s.live ==> Places(s, a) == 0)
  {
    RunInvariant(labels);
    assert Accounted(Exec(INIT, labels), a);
  }

  /** Every queued message has a live text, empty only for the playing time. */
  lemma {:induction false} QueuedMessagesAreGood(labels: seq<Label>, i: nat)
    requires i < |Exec(INIT, labels).queue|
    ensures var s := Exec(INIT, labels);
            && |s.queue| <= AVRC_QUEUE_SIZE
            && s.queue[i].payload.To?
            && s.queue[i].payload.address in s.live
            && (!s.queue[i].id.PlayingTime? ==> TextAt(s.memory, s.queue[i]) != "")
  {
    hide Next;
    RunInvariant(labels);
    var s := Exec(INIT, labels);
    assert GoodMessage(s.memory, s.queue[i]);
    HeldHere(s.queue, i, Points, s.queue[i].payload.address);
    assert Accounted(s, s.queue[i].payload.address);
  }

  lemma HandsBound(s: State)
    ensures |set a | a in s.live && CallbackHolds(s.callbackAt, a) > 0| <= 1
    ensures |set a | a in s.live && TaskHolds(s.taskAt, a) > 0| <= 1
  {
    var calling := set a | a in s.live && CallbackHolds(s.callbackAt, a) > 0;
    var working := set a | a in s.live && TaskHolds(s.taskAt, a) > 0;
    if a :| a in calling { SubsetBound(calling, {a}); }
    if a :| a in working { SubsetBound(working, {a}); }
  }

  /** A full queue, one text in the callback's hand and one in the task's: no more strings are ever live. */
  lemma {:induction false} MemoryIsBounded(labels: seq<Label>)
    ensures |Exec(INIT, labels).live| <= AVRC_QUEUE_SIZE + 2
  {
    hide Next, InOrder;
    RunInvariant(labels);
    var s := Exec(INIT, labels);
    PointedBound(s.live, s.queue, Points);
    HandsBound(s);
    var calling := set a | a in s.live && CallbackHolds(s.callbackAt, a) > 0;
    var working := set a | a in s.live && TaskHolds(s.taskAt, a) > 0;
    forall a | a in s.live ensures a in Pointed(s.live, s.queue, Points) + (calling + working) {
      assert Accounted(s, a);
    }
    SubsetBound(s.live, Pointed(s.live, s.queue, Points) + (calling + working));
    UnionBound(Pointed(s.live, s.queue, Points), calling + working);
    UnionBound(calling, working);
  }

  lemma {:induction false} KnownIsSubsequence(items: seq<Item>)
    ensures IsSubsequence(Known(items), items)
    decreases |items|
  {
    if items == [] {
      Reflexive<Item>([]);
    } else {
      var front, item := items[..|items| - 1], items[|items| - 1];
      KnownIsSubsequence(front);
      assert items == front + [item];
      Extend(Known(front), front, [item]);
      if item.id.Unhandled? {
        Prefix(Known(front), [item], items);
        assert Known(items) == Known(front) + [] == Known(front);
      }
    }
  }

  /** What the task passes on is exactly the known part of what it took out of the queue, a selection in order
      of what was queued, which is one of what was offered. Nothing queued is ever lost. */
  lemma {:induction false} UpdatesInOrder(labels: seq<Label>)
    ensures var s := Exec(INIT, labels);
            && s.queued == s.handled + (TaskHand(s.memory, s.taskAt) + Items(s.memory, s.queue))
            && s.updates == Known(s.handled)
            && IsSubsequence(s.updates, s.queued)
            && IsSubsequence(s.queued, s.offered)
  {
    hide Next;
    RunInvariant(labels);
    var s := Exec(INIT, labels);
    var rest := TaskHand(s.memory, s.taskAt) + Items(s.memory, s.queue);
    KnownIsSubsequence(s.handled);
    Extend(s.updates, s.handled, rest);
    Prefix(s.updates, rest, s.queued);
    Prefix(s.queued, CallbackHand(s.memory, s.callbackAt), s.offered);
  }

  /** Sends of a run that found the queue full. */
  function Drops(labels: seq<Label>): nat {
    if labels == [] then 0
    else
      var front := labels[..|labels| - 1];
      Drops(front) + if DropsAt(Exec(INIT, front), labels[|labels| - 1]) then 1 else 0
  }

  predicate DropsAt(s: State, l: Label) {
    l.CallbackRun? && s.callbackAt.Sending? && |s.queue| >= AVRC_QUEUE_SIZE
  }

  /** What is offered is queued, in the callback's hand, or dropped. */
  predicate Balanced(s: State, drops: nat) {
    && |s.offered| == |s.queued| + |CallbackHand(s.memory, s.callbackAt)| + drops
    && (drops == 0 ==> s.offered == s.queued + CallbackHand(s.memory, s.callbackAt))
  }

  lemma CallbackBalance(s: State, l: Label, drops: nat)
    requires Safe(s) && Balanced(s, drops) && !l.TaskRun?
    ensures Balanced(Next(s, l), drops + if DropsAt(s, l) then 1 else 0)
  {
    hide Safe;
    var t := Next(s, l);
    if l.Callback? && t != s {
      assert CallbackHand(t.memory, t.callbackAt) == [Item(l.id, l.text.text)];
      assert s.queued + [] == s.queued;
    }
  }

  lemma TaskBalance(s: State, drops: nat)
    requires Balanced(s, drops)
    ensures Balanced(TaskStep(s), drops)
  {
    hide ItemOf, Known;
  }

  /** Every failed send costs exactly one item: the queue has received all that was offered, in order, if and only
      if no send found it full. */
  lemma {:induction false} QueuedIsOffered(labels: seq<Label>)
    ensures var s := Exec(INIT, labels);
            && |s.offered| == |s.queued| + |CallbackHand(s.memory, s.callbackAt)| + Drops(labels)
            && (s.offered == s.queued + CallbackHand(s.memory, s.callbackAt) <==> Drops(labels) == 0)
  {
    BalancedRun(labels);
  }

  lemma {:induction false} BalancedRun(labels: seq<Label>)
    ensures Balanced(Exec(INIT, labels), Drops(labels))
    decreases |labels|
  {
    hide Next, Safe, InOrder, DropsAt, CallbackHand;
    if labels == [] {
      assert CallbackHand([], Returned) == [] by { NothingInHand(); }
    } else {
      var front, l := labels[..|labels| - 1], labels[|labels| - 1];
      BalancedRun(front);
      RunInvariant(front);
      var s := Exec(INIT, front);
      if l.TaskRun? {
        TaskBalance(s, Drops(front));
        TaskIsNoCallback(s);
      } else {
        CallbackBalance(s, l, Drops(front));
      }
    }
  }

  lemma NothingInHand()
    ensures CallbackHand([], Returned) == []
  {
  }

  lemma TaskIsNoCallback(s: State)
    ensures !DropsAt(s, TaskRun) && Next(s, TaskRun) == TaskStep(s)
  {
  }

  /** The emulator has a method for each of the four. */
  predicate HasUpdate(id: Attribute) {
    id == Title || id == Artist || id == Album || id == PlayingTime
  }

  /** Of what the task took up, every title, artist, album and playing time reached the emulator, as often as it
      was taken up, and nothing else did. */
  lemma {:induction false} UpdatesExactly(labels: seq<Label>, item: Item)
    ensures var s := Exec(INIT, labels);
            multiset(s.updates)[item]
            == if item.id == Title || item.id == Artist || item.id == Album || item.id == PlayingTime
               then multiset(s.handled)[item] else 0
  {
    UpdatesInOrder(labels);
    KnownExactly(Exec(INIT, labels).handled, item);
  }

  lemma {:induction false} KnownExactly(items: seq<Item>, item: Item)
    ensures multiset(Known(items))[item] == if HasUpdate(item.id) then multiset(items)[item] else 0
    decreases |items|
  {
    if items != [] {
      var front, last := items[..|items| - 1], items[|items| - 1];
      assert items == front + [last];
      KnownExactly(front, item);
    }
  }

  lemma KnownOne(item: Item)
    ensures Known([item]) == if HasUpdate(item.id) then [item] else []
  {
    assert [item][..0] == [];
  }

  lemma {:induction false} ExecAppend(s: State, a: seq<Label>, b: seq<Label>)
    ensures Exec(s, a + b) == Exec(Exec(s, a), b)
    decreases |b|
  {
    if b == [] {
      assert a + b == a;
    } else {
      assert (a + b)[..|a + b| - 1] == a + b[..|b| - 1];
      ExecAppend(s, a, b[..|b| - 1]);
    }
  }

  // ---- The callback and the task as they run ----

  /** The side a label belongs to: the task's, or the callback's. */
  function Side(l: Label): bool {
    l.TaskRun?
  }

  /** What the other side leaves alone; nor does it hand out a freed string again. */
  ghost predicate SamePlace(task: bool, s: State, t: State) {
    && (forall a :: a < |s.memory| && a !in s.live ==> a !in t.live)
    && if task then t.taskAt == s.taskAt && t.handled == s.handled && t.updates == s.updates && s.memory <= t.memory
       else t.callbackAt == s.callbackAt && t.queued == s.queued && t.offered == s.offered && t.memory == s.memory
  }

  lemma NextKeepsSide(task: bool, s: State, l: Label)
    requires Side(l) != task
    ensures SamePlace(task, s, Next(s, l))
  {
  }

  lemma {:induction false} OtherSideKeepsPlace(task: bool, s: State, labels: seq<Label>)
    requires forall i :: 0 <= i < |labels| ==> Side(labels[i]) != task
    ensures SamePlace(task, s, Exec(s, labels))
    decreases |labels|
  {
    hide Next;
    if labels != [] {
      var t := Exec(s, labels[..|labels| - 1]);
      OtherSideKeepsPlace(task, s, labels[..|labels| - 1]);
      NextKeepsSide(task, t, labels[|labels| - 1]);
    }
  }

  type Log = seq<Move<Label, bool>>

  /** The state after the first `k` moves of a log. */
  ghost function StateAt(log: Log, plan: seq<seq<Label>>, k: nat): State
    requires k <= |log|
  {
    Exec(INIT, Play(log[..k], plan, Side))
  }

  lemma StatesStay(log: Log, longer: Log, plan: seq<seq<Label>>)
    requires log <= longer
    ensures forall k: nat :: k <= |log| ==> StateAt(longer, plan, k) == StateAt(log, plan, k)
  {
    forall k: nat | k <= |log| ensures StateAt(longer, plan, k) == StateAt(log, plan, k) {
      assert longer[..k] == log[..k];
    }
  }

  /** A trace is what a log amounts to under a plan, of which a schedule is left. */
  ghost predicate Tracks(trace: seq<Label>, log: Log, plan: seq<seq<Label>>, schedule: seq<seq<Label>>) {
    trace == Play(log, plan, Side) && schedule == Rest(plan, Yields(log))
  }

  lemma TrackDid(l: Label, trace: seq<Label>, log: Log, plan: seq<seq<Label>>, schedule: seq<seq<Label>>)
    requires Tracks(trace, log, plan, schedule)
    ensures Tracks(trace + [l], log + [Did(l)], plan, schedule)
    ensures Exec(INIT, trace + [l]) == Next(Exec(INIT, trace), l)
  {
    hide Next, Play, Rest;
    PlayDid(log, l, plan, Side);
    assert (trace + [l])[..|trace|] == trace;
  }

  lemma TrackYielded(task: bool, trace: seq<Label>, log: Log, plan: seq<seq<Label>>, schedule: seq<seq<Label>>)
    requires Tracks(trace, log, plan, schedule)
    ensures var labels := if schedule == [] then [] else Others(task, schedule[0], Side);
            var s := Exec(INIT, trace);
            && Tracks(trace + labels, log + [Yielded(task)], plan, if schedule == [] then [] else schedule[1..])
            && Exec(INIT, trace + labels) == Exec(s, labels) && SamePlace(task, s, Exec(s, labels))
            && (labels == [] ==> Exec(s, labels) == s)
  {
    var labels := if schedule == [] then [] else Others(task, schedule[0], Side);
    hide Play, Rest, Yields, Others, Next, SamePlace;
    PlayYielded(log, task, plan, Side);
    if schedule != [] {
      OthersExactly(task, schedule[0], Side);
    }
    OtherSideKeepsPlace(task, Exec(INIT, trace), labels);
    ExecAppend(INIT, trace, labels);
  }

  lemma MessagesInHand(labels: seq<Label>)
    ensures var s := Exec(INIT, labels);
            && (forall i :: 0 <= i < |s.queue| ==> GoodMessage(s.memory, s.queue[i]))
            && (s.taskAt.Handling? ==> s.taskAt.msg.payload.To? && s.taskAt.msg.payload.address in s.live)
  {
    hide Next, InOrder;
    RunInvariant(labels);
    var s := Exec(INIT, labels);
    if s.taskAt.Handling? {
      assert Accounted(s, s.taskAt.msg.payload.address);
    }
  }

  lemma StringsAreSound(labels: seq<Label>)
    ensures var s := Exec(INIT, labels);
            && !s.fault && |s.queue| <= AVRC_QUEUE_SIZE && |s.memory| !in s.live
  {
    hide Next, InOrder;
    RunInvariant(labels);
    var s := Exec(INIT, labels);
    assert Accounted(s, |s.memory|);
  }

  /** The queue shared by the callback and the task; `trace`, `log` and Valid as in Snooper. */
  class Pump {
    var callbackAt: CallbackAt
    var taskAt: TaskAt
    var queue: seq<Metadata>
    var memory: seq<string>
    var live: set<Address>
    var fault: bool
    var offered: seq<Item>
    var queued: seq<Item>
    var handled: seq<Item>
    var updates: seq<Item>
    var schedule: seq<seq<Label>>
    ghost var trace: seq<Label>
    ghost var log: Log
    ghost const plan: seq<seq<Label>>

    function View(): State
      reads this
    {
      State(callbackAt, taskAt, queue, memory, live, fault, offered, queued, handled, updates)
    }

    ghost predicate Valid()
      reads this
    {
      View() == Exec(INIT, trace) && Tracked()
    }

    ghost predicate Tracked()
      reads this`trace, this`log, this`schedule
    {
      Tracks(trace, log, plan, schedule)
    }

    lemma Now()
      requires Valid()
      ensures StateAt(log, plan, |log|) == View()
    {
      assert log[..|log|] == log;
    }

    lemma Sound()
      requires Valid()
      ensures !fault && |queue| <= AVRC_QUEUE_SIZE && |memory| !in live
    {
      hide Exec, Tracked;
      StringsAreSound(trace);
    }

    constructor (schedule: seq<seq<Label>>)
      ensures Valid() && trace == [] && log == [] && this.schedule == schedule == plan
    {
      callbackAt, taskAt, queue, memory, live, fault := Returned, Blocked, [], [], {}, false;
      offered, queued, handled, updates := [], [], [], [];
      this.schedule, plan := schedule, schedule;
      trace, log := [], [];
    }

    /** The other side takes the steps the schedule has for it. */
    method Preempt(task: bool)
      requires Valid()
      modifies this
      ensures Valid() && SamePlace(task, old(View()), View()) && log == old(log) + [Yielded(task)]
      ensures trace == old(trace) + if old(schedule) == [] then [] else Others(task, old(schedule)[0], Side)
      ensures schedule == if old(schedule) == [] then [] else old(schedule)[1..]
      ensures old(schedule) == [] ==> View() == old(View())
    {
      hide Next, Exec, SamePlace, Tracks;
      var labels := if schedule == [] then [] else Others(task, schedule[0], Side);
      TrackYielded(task, trace, log, plan, schedule);
      Load(Exec(View(), labels));
      schedule := if schedule == [] then [] else schedule[1..];
      trace, log := trace + labels, log + [Yielded(task)];
    }

    method Load(t: State)
      modifies this
      ensures View() == t && trace == old(trace) && log == old(log) && schedule == old(schedule)
    {
      LoadHistory(t);
      callbackAt, taskAt, queue, memory, live, fault := t.callbackAt, t.taskAt, t.queue, t.memory, t.live, t.fault;
    }

    method LoadHistory(t: State)
      modifies this`offered, this`queued, this`handled, this`updates
      ensures offered == t.offered && queued == t.queued && handled == t.handled && updates == t.updates
    {
      offered, queued, handled, updates := t.offered, t.queued, t.handled, t.updates;
    }

    ghost method Note(l: Label, before: State)
      requires before == Exec(INIT, trace) && Tracked() && View() == Next(before, l)
      modifies this`trace, this`log
      ensures Valid() && trace == old(trace) + [l] && log == old(log) + [Did(l)]
    {
      hide Next, Exec, Tracks;
      TrackDid(l, trace, log, plan, schedule);
      trace, log := trace + [l], log + [Did(l)];
    }

    /** `free` */
    method Release(msg: Metadata)
      requires msg.payload.To?
      modifies this`live, this`fault
      ensures live == old(live) - {msg.payload.address}
      ensures fault == (old(fault) || msg.payload.address !in old(live))
    {
      if msg.payload.address in live {
        live := live - {msg.payload.address};
      } else {
        fault := true;
      }
    }

    /** `avrc_metadata_callback`: an admitted text is duplicated and queued, or freed if the queue is full. Admitted
        is what is not null, and not empty unless it is the playing time. */
    method MetadataCallback(id: Attribute, text: CString, duplicated: bool) returns (sent: bool)
      requires Valid() && callbackAt.Returned?
      modifies this
      ensures Valid() && callbackAt.Returned?
      ensures var copied := text.Text? && (id == PlayingTime || text.text != "") && duplicated;
              && (!copied ==> !sent && log == old(log) && View() == old(View()))
              && (copied ==>
                    && offered == old(offered) + [Item(id, text.text)] && memory == old(memory) + [text.text]
                    && queued == old(queued) + (if sent then [Item(id, text.text)] else [])
                    && log == old(log) + [Did(Callback(id, text, true)), Yielded(false), Did(CallbackRun)]
                              + (if sent then [] else [Yielded(false), Did(CallbackRun)])
                    && (sent <==> |StateAt(log, plan, |old(log)| + 2).queue| < AVRC_QUEUE_SIZE)
                    && (!sent ==> |old(memory)| !in live))
              && (copied && old(schedule) == [] ==>
                    && schedule == [] && (sent <==> |old(queue)| < AVRC_QUEUE_SIZE)
                    && View() == old(View()).(
                                   memory := memory, offered := offered, queued := queued,
                                   live := old(live) + (if sent then {|old(memory)|} else {}),
                                   queue := old(queue) + if sent then [Metadata(id, To(|old(memory)|))] else []))
    {
      hide Valid, StateAt;
      sent := false;
      if text.NullText? {
        return;
      }
      if !id.PlayingTime? && text.text == "" {
        return;
      }
      if !duplicated {
        return;
      }
      Sound();
      var msg := Duplicate(id, text);
      sent := SendOrFree(msg);
      assert old(live) + {|old(memory)|} - {|old(memory)|} == old(live);
    }

    /** The send, and the `free` of a text that finds the queue full. */
    method SendOrFree(msg: Metadata) returns (sent: bool)
      requires Valid() && callbackAt == Sending(msg) && msg.payload.To? && msg.payload.address < |memory|
      modifies this
      ensures Valid() && callbackAt.Returned?
      ensures memory == old(memory) && offered == old(offered)
      ensures queued == old(queued) + if sent then [ItemOf(memory, msg)] else []
      ensures log == old(log) + [Yielded(false), Did(CallbackRun)]
                     + if sent then [] else [Yielded(false), Did(CallbackRun)]
      ensures sent <==> |StateAt(log, plan, |old(log)| + 1).queue| < AVRC_QUEUE_SIZE
      ensures !sent ==> msg.payload.address !in live
      ensures old(schedule) == [] ==>
                && schedule == [] && (sent <==> |old(queue)| < AVRC_QUEUE_SIZE)
                && View() == old(View()).(callbackAt := Returned, queued := queued,
                                          queue := old(queue) + (if sent then [msg] else []),
                                          live := old(live) - if sent then {} else {msg.payload.address})
    {
      hide Valid, ItemOf, StateAt;
      Preempt(false);
      Now();
      ghost var seen := log;
      sent := Send(msg);
      if !sent {
        DropText(msg);
      }
      StatesStay(seen, log, plan);
    }

    /** A text that found the queue full is freed. */
    method DropText(msg: Metadata)
      requires Valid() && callbackAt == Discarding(msg) && msg.payload.To? && msg.payload.address < |memory|
      modifies this
      ensures Valid() && callbackAt.Returned? && msg.payload.address !in live
      ensures memory == old(memory) && offered == old(offered) && queued == old(queued)
      ensures log == old(log) + [Yielded(false), Did(CallbackRun)]
      ensures old(schedule) == [] ==>
                && schedule == []
                && View() == old(View()).(callbackAt := Returned, live := old(live) - {msg.payload.address})
    {
      hide Valid;
      Preempt(false);
      FreeUnsent(msg);
    }

    /** `strdup` */
    method Duplicate(id: Attribute, text: CString) returns (msg: Metadata)
      requires Valid() && callbackAt.Returned? && text.Text? && (id == PlayingTime || text.text != "")
      modifies this`memory, this`live, this`offered, this`callbackAt, this`trace, this`log
      ensures Valid() && callbackAt == Sending(msg) && log == old(log) + [Did(Callback(id, text, true))]
      ensures offered == old(offered) + [Item(id, text.text)]
      ensures msg == Metadata(id, To(|old(memory)|)) && memory == old(memory) + [text.text]
      ensures live == old(live) + {|old(memory)|}
    {
      hide Exec, Tracked;
      ghost var s := View();
      msg := Metadata(id, To(|memory|));
      memory := memory + [text.text];
      live := live + {msg.payload.address};
      offered := offered + [Item(id, text.text)];
      callbackAt := Sending(msg);
      Note(Callback(id, text, true), s);
    }

    /** `xQueueSend` without waiting: it fails exactly on a full queue. */
    method Send(msg: Metadata) returns (sent: bool)
      requires Valid() && callbackAt == Sending(msg)
      modifies this`queue, this`queued, this`callbackAt, this`trace, this`log
      ensures Valid() && log == old(log) + [Did(CallbackRun)]
      ensures sent <==> |old(queue)| < AVRC_QUEUE_SIZE
      ensures sent ==>
                && callbackAt.Returned? && queue == old(queue) + [msg]
                && queued == old(queued) + [ItemOf(memory, msg)]
      ensures !sent ==> callbackAt == Discarding(msg) && queue == old(queue) && queued == old(queued)
    {
      hide Exec, Tracked;
      ghost var s := View();
      sent := |queue| < AVRC_QUEUE_SIZE;
      if sent {
        queue := queue + [msg];
        queued := queued + [ItemOf(memory, msg)];
        callbackAt := Returned;
      } else {
        callbackAt := Discarding(msg);
      }
      Note(CallbackRun, s);
    }

    method FreeUnsent(msg: Metadata)
      requires Valid() && callbackAt == Discarding(msg) && msg.payload.To?
      modifies this`live, this`fault, this`callbackAt, this`trace, this`log
      ensures Valid() && callbackAt.Returned? && log == old(log) + [Did(CallbackRun)]
      ensures live == old(live) - {msg.payload.address} && fault == old(fault)
    {
      hide Exec, Tracked;
      Sound();
      ghost var s := View();
      Release(msg);
      callbackAt := Returned;
      Note(CallbackRun, s);
      Sound();
    }

    /** One turn of the loop of `processAVRCTask`: blocks while the queue is empty, otherwise hands the oldest
        item on, if it has a case for it, and frees its text. */
    method TaskTurn() returns (taken: bool)
      requires Valid() && taskAt.Blocked?
      modifies this
      ensures Valid() && taskAt.Blocked?
      ensures taken <==> old(queue) != []
      ensures !taken ==> log == old(log) && View() == old(View())
      ensures taken ==>
                var msg, item := old(queue)[0], old(ItemOf(memory, queue[0]));
                && log == old(log) + [Did(TaskRun), Yielded(true), Did(TaskRun), Yielded(true), Did(TaskRun)]
                && handled == old(handled) + [item]
                && updates == old(updates) + (if msg.id == Title || msg.id == Artist || msg.id == Album
                                                 || msg.id == PlayingTime then [item] else [])
                && msg.payload.To? && msg.payload.address !in live
                && (old(schedule) == [] ==>
                      && schedule == []
                      && View() == old(View()).(queue := old(queue)[1..], handled := handled, updates := updates,
                                                live := old(live) - {msg.payload.address}))
    {
      hide Valid;
      taken := queue != [];
      if taken {
        ghost var item := ItemOf(memory, queue[0]);
        var incMetadata := ReceiveMetadata();
        HandleAndFree(incMetadata, item);
      }
    }

    /** The switch and the `free`, with the callback free to run before each. */
    method HandleAndFree(msg: Metadata, ghost item: Item)
      requires Valid() && taskAt == Handling(msg)
      requires msg.payload.To? && msg.payload.address < |memory| && ItemOf(memory, msg) == item
      modifies this
      ensures Valid() && taskAt.Blocked?
      ensures log == old(log) + [Yielded(true), Did(TaskRun), Yielded(true), Did(TaskRun)]
      ensures handled == old(handled) + [item]
      ensures updates == old(updates) + if HasUpdate(msg.id) then [item] else []
      ensures msg.payload.address !in live
      ensures old(schedule) == [] ==>
                && schedule == []
                && View() == old(View()).(taskAt := Blocked, handled := handled, updates := updates,
                                          live := old(live) - {msg.payload.address})
    {
      hide Valid;
      Preempt(true);
      Handle(msg);
      Preempt(true);
      FreeHandled(msg);
    }

    /** `xQueueReceive` that finds a message. */
    method ReceiveMetadata() returns (msg: Metadata)
      requires Valid() && taskAt.Blocked? && queue != []
      modifies this`queue, this`taskAt, this`trace, this`log
      ensures Valid() && taskAt == Handling(msg) && log == old(log) + [Did(TaskRun)]
      ensures [msg] + queue == old(queue)
      ensures msg.payload.To? && msg.payload.address < |memory|
    {
      MessagesInHand(trace);
      hide Exec, Tracked;
      ghost var s := View();
      msg := queue[0];
      queue := queue[1..];
      taskAt := Handling(msg);
      Note(TaskRun, s);
    }

    /** The switch on the attribute. */
    method Handle(msg: Metadata)
      requires Valid() && taskAt == Handling(msg)
      modifies this`taskAt, this`handled, this`updates, this`trace, this`log
      ensures Valid() && taskAt == Freeing(msg) && log == old(log) + [Did(TaskRun)]
      ensures handled == old(handled) + [ItemOf(memory, msg)]
      ensures updates == old(updates) + if HasUpdate(msg.id) then [ItemOf(memory, msg)] else []
    {
      MessagesInHand(trace);
      ghost var s := View();
      var item := ItemOf(memory, msg);
      KnownOne(item);
      hide Exec, Tracked, Known;
      match msg.id {
        case Album => updates := updates + [item];
        case Artist => updates := updates + [item];
        case Title => updates := updates + [item];
        case PlayingTime => updates := updates + [item];
        case Unhandled(_) =>
      }
      handled := handled + [item];
      taskAt := Freeing(msg);
      Note(TaskRun, s);
    }

    method FreeHandled(msg: Metadata)
      requires Valid() && taskAt == Freeing(msg) && msg.payload.To?
      modifies this`live, this`fault, this`taskAt, this`trace, this`log
      ensures Valid() && taskAt.Blocked? && log == old(log) + [Did(TaskRun)]
      ensures live == old(live) - {msg.payload.address} && fault == old(fault)
    {
      hide Exec, Tracked;
      Sound();
      ghost var s := View();
      Release(msg);
      taskAt := Blocked;
      Note(TaskRun, s);
      Sound();
    }
  }
}
