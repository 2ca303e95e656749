/** Runs of the composed system in which less holds than one might expect. */
module Witnesses {
  import opened Basics
  import opened Outcomes
  import S = SnapshotTable
  import T = TaskTable
  import R = TaskRuns
  import W = WritebackTable
  import opened Protocol
  import opened ProtocolCases
  import opened ProtocolInvariant
  import opened ProtocolSteps
  import opened ProtocolTheorems
  import opened SecondTickets

  // Building runs -----------------------------------------------------------------------

  lemma Extend(run: seq<Event>, e: Event, c: Config)
    requires IsRun(0, run, c) && Enabled(After(0, run, c), e.step, e.now, c)
    ensures IsRun(0, run + [e], c) && After(0, run + [e], c) == Next(After(0, run, c), e.step, e.now, c)
  {
    hide Enabled, Next;
    assert (run + [e])[..|run + [e]| - 1] == run;
  }

  lemma Empty(c: Config)
    ensures IsRun(0, [], c) && After(0, [], c) == Start(0)
  {
    hide Next, Enabled;
  }

  // Names -------------------------------------------------------------------------------

  function Context(): string { Opaque("acr_", 'A') }

  function OtherContext(): string { Opaque("acr_", 'B') }

  function Ticket(): string { Opaque("awr_", 'A') }

  function OtherTicket(): string { Opaque("awr_", 'B') }

  lemma Names()
    ensures Context() != "" && Ticket() != "" && OtherTicket() != "" && OtherContext() != ""
    ensures Ticket() != OtherTicket() && Context() != OtherContext()
  {
    hide Opaque;
    assert Ticket()[4] != OtherTicket()[4] && Context()[4] != OtherContext()[4];
  }

  function What(): S.Candidate {
    S.Candidate(1, "topic", 1, Artifact("a", "a", "html", "https://a", 1), 1, Route("node", "conn"), "", "")
  }

  // A snapshot with two tickets -----------------------------------------------------------

  function Made(c: Config): S.Info {
    S.Info(Context(), What(), 0, c.snapshots.ttl, 1)
  }

  function Snapshots(c: Config): S.Table {
    S.Table(map[Context() := S.Snapshot(Made(c), S.Active, None)], map[Made(c).Owner() := Context()])
  }

  /** The writeback store with one ticket, drawn as `ref` at `now`. */
  function Ticketed(ref: string, now: Time, c: Config): W.Table {
    W.EMPTY.(tickets := map[ref := W.SnapshotTarget(Made(c), ref, now, c.writebacks)], byContext := map[Context() := ref])
  }

  function Tombstoned(c: Config): W.Table {
    W.EMPTY.(invalidated := map[Context() := c.writebacks.ticketTTL])
  }

  lemma MadeIsCurrent(c: Config)
    requires c.Valid()
    ensures S.VictimChosen(S.EMPTY, What(), "", 0, c.snapshots)
    ensures S.Create(S.EMPTY, What(), Context(), "", 0, c.snapshots) == (Snapshots(c), S.Stored(Made(c), ""))
    ensures S.WithCurrent(Snapshots(c), Context(), 1, 0, c.snapshots) == (Snapshots(c), S.Active)
  {
    hide Opaque;
    assert S.Cleanup(S.EMPTY, 0, c.snapshots) == S.EMPTY;
    assert S.Cleanup(Snapshots(c), 0, c.snapshots) == Snapshots(c);
  }

  lemma FirstGrant(c: Config)
    requires c.Valid()
    ensures var target := W.SnapshotTarget(Made(c), Ticket(), 0, c.writebacks);
      W.IssueContext(W.EMPTY, Made(c), Ticket(), 0, c.writebacks) == (Ticketed(Ticket(), 0, c), W.Granted(target))
  {
    hide Opaque;
    Names();
    assert W.Cleanup(W.EMPTY, 0) == W.EMPTY;
  }

  lemma Invalidation(c: Config)
    requires c.Valid()
    ensures W.InvalidateContext(Ticketed(Ticket(), 0, c), Context(), 0, c.writebacks) == Tombstoned(c)
  {
    hide Opaque, W.Cleanup;
    Names();
    TicketStays(0, c);
  }

  lemma SecondGrant(c: Config)
    requires c.Valid()
    ensures var ttl := c.writebacks.ticketTTL; var target := W.SnapshotTarget(Made(c), OtherTicket(), ttl, c.writebacks);
      W.IssueContext(Tombstoned(c), Made(c), OtherTicket(), ttl, c.writebacks) == (Ticketed(OtherTicket(), ttl, c), W.Granted(target))
  {
    hide Opaque;
    Names();
    assert W.Cleanup(Tombstoned(c), c.writebacks.ticketTTL) == W.EMPTY;
  }

  function WithSnapshot(c: Config): State {
    Start(0).(snaps := Snapshots(c), made := map[Context() := Made(c)])
  }

  function WithTicket(c: Config): State {
    WithSnapshot(c).(wb := Ticketed(Ticket(), 0, c), issued := map[Ticket() := W.SnapshotTarget(Made(c), Ticket(), 0, c.writebacks)])
  }

  function WithTombstone(c: Config): State {
    WithTicket(c).(wb := Tombstoned(c), closed := {Context()})
  }

  lemma ToSnapshot(c: Config)
    requires c.Valid()
    ensures var step := CreateSnapshot(What(), Context(), ""); Enabled(Start(0), step, 0, c) && Next(Start(0), step, 0, c) == WithSnapshot(c)
  {
    hide Enabled, Next, S.Create, S.VictimChosen, Opaque;
    Names();
    MadeIsCurrent(c);
    IsCreateSnapshot(Start(0), What(), Context(), "", 0, c);
  }

  lemma ToTicket(c: Config)
    requires c.Valid()
    ensures var step := IssueForContext(Context(), 1, Ticket(), 0);
      Enabled(WithSnapshot(c), step, 0, c) && Next(WithSnapshot(c), step, 0, c) == WithTicket(c)
  {
    hide Enabled, Next, S.WithCurrent, W.IssueContext, Opaque;
    Names();
    MadeIsCurrent(c);
    FirstGrant(c);
    IsIssueForContext(WithSnapshot(c), Context(), 1, Ticket(), 0, 0, c);
  }

  lemma ToTombstone(c: Config)
    requires c.Valid()
    ensures var step := InvalidateContext(Context()); Enabled(WithTicket(c), step, 0, c) && Next(WithTicket(c), step, 0, c) == WithTombstone(c)
  {
    hide Enabled, Next, W.InvalidateContext, Opaque;
    Names();
    Invalidation(c);
    IsInvalidateContext(WithTicket(c), Context(), 0, c);
  }

  lemma ToSecond(c: Config)
    requires c.Valid()
    ensures var ttl := c.writebacks.ticketTTL; var step := IssueForContext(Context(), 1, OtherTicket(), ttl);
      Enabled(WithTombstone(c), step, 0, c)
      && Next(WithTombstone(c), step, 0, c).issued
         == WithTombstone(c).issued[OtherTicket() := W.SnapshotTarget(Made(c), OtherTicket(), ttl, c.writebacks)]
  {
    hide Enabled, Next, S.WithCurrent, W.IssueContext, Opaque;
    Names();
    MadeIsCurrent(c);
    SecondGrant(c);
    IsIssueForContext(WithTombstone(c), Context(), 1, OtherTicket(), 0, c.writebacks.ticketTTL, c);
  }

  /** Under every configuration there is a run that gives one snapshot two tickets: the second callback
      reads its clock when the tombstone of the first invalidation has just ended. */
  lemma SnapshotTwice(c: Config) returns (run: seq<Event>)
    requires c.Valid()
    ensures IsRun(0, run, c) && !OneTicketPerSource(After(0, run, c).issued)
    ensures var issued := After(0, run, c).issued;
      && Ticket() in issued && OtherTicket() in issued && Ticket() != OtherTicket()
      && issued[Ticket()].contextRef == issued[OtherTicket()].contextRef == Context()
  {
    hide Enabled, Next, After, IsRun, Opaque;
    var ttl := c.writebacks.ticketTTL;
    Names();
    run := TicketRun(c);
    ToTombstone(c);
    Extend(run, At(0, InvalidateContext(Context())), c);
    ToSecond(c);
    run := run + [At(0, InvalidateContext(Context()))];
    Extend(run, At(0, IssueForContext(Context(), 1, OtherTicket(), ttl)), c);
    run := run + [At(0, IssueForContext(Context(), 1, OtherTicket(), ttl))];
    var issued := After(0, run, c).issued;
    assert issued[Ticket()].contextRef == issued[OtherTicket()].contextRef == Context();
  }

  // A task with two tickets ---------------------------------------------------------------

  function TaskID(): string { Opaque("atk_", 'A') }

  function TaskRef(): string { Opaque("atr_", 'A') }

  function Info(c: Config): T.Info { R.SampleInfo(0, c.tasks) }

  function Delivery(): T.DeliveryRef { R.SampleDelivery() }

  function DeliveredTask(c: Config): T.Table { R.DeliveredTask(c.tasks) }

  lemma ConfirmsFirst(c: Config)
    requires c.Valid()
    ensures T.Apply(R.ReservedTask(c.tasks), T.DoConfirm(Delivery()), 0, c.tasks) == DeliveredTask(c)
    ensures T.WithWritable(DeliveredTask(c), TaskRef(), TaskID(), 0, c.tasks) == (DeliveredTask(c), Some(R.DeliveredSample(c.tasks)))
  {
    hide Opaque, OpaqueID, T.Cleanup, T.Apply;
    R.ConfirmsFirst(c.tasks);
  }

  /** The writeback store with one ticket of the task, drawn as `ref` at `now`. */
  function TaskTicketed(ref: string, now: Time, c: Config): W.Table {
    W.EMPTY.(tickets := map[ref := W.TaskTarget(Info(c), ref, now)], byTask := map[TaskID() := ref])
  }

  lemma SampleIssuable(c: Config)
    ensures W.TaskIssuable(Info(c)) && Info(c).id == TaskID() != ""
  {
    hide Opaque, OpaqueID;
    var sink := "a.v1";
    assert sink[..1] == "a" && sink[1] == '.' && sink[2] == 'v' && sink[3..] == "1";
    assert NameShape(sink[..1]) && VersionShape(sink[3..]);
    assert ValidSinkID(sink);
  }

  lemma TaskGrants(c: Config)
    requires c.Valid()
    ensures var target := W.TaskTarget(Info(c), Ticket(), 0);
      W.IssueTask(W.EMPTY, Info(c), Ticket(), 0, c.writebacks) == (TaskTicketed(Ticket(), 0, c), W.Granted(target))
    ensures var ttl := c.tasks.ttl; var target := W.TaskTarget(Info(c), OtherTicket(), ttl);
      W.IssueTask(TaskTicketed(Ticket(), 0, c), Info(c), OtherTicket(), ttl, c.writebacks) == (TaskTicketed(OtherTicket(), ttl, c), W.Granted(target))
  {
    hide Opaque, W.TaskIssuable, W.SameTask;
    Names();
    SampleIssuable(c);
    assert W.Cleanup(W.EMPTY, 0) == W.EMPTY;
    assert W.Cleanup(TaskTicketed(Ticket(), 0, c), c.tasks.ttl) == W.EMPTY;
  }

  function WithTask(c: Config, tasks: T.Table): State {
    Start(0).(tasks := tasks, taskMade := map[TaskID() := Info(c)])
  }

  function WithTaskTicket(c: Config): State {
    WithTask(c, DeliveredTask(c)).(wb := TaskTicketed(Ticket(), 0, c), issued := map[Ticket() := W.TaskTarget(Info(c), Ticket(), 0)])
  }

  function TaskCreation(): Step {
    CreateTask(R.Sample(), Some(T.Identity(TaskID(), TaskRef())), "")
  }

  function Reservation(): T.Op {
    T.DoReserve(TaskRef(), 1, "t", 1, "m")
  }

  lemma ToTask(c: Config)
    requires c.Valid()
    ensures Enabled(Start(0), TaskCreation(), 0, c) && Next(Start(0), TaskCreation(), 0, c) == WithTask(c, R.OneTask(0, c.tasks))
  {
    hide T.Create, R.OneTask, OpaqueID, Opaque, S.VictimChosen, DoCreateSnapshot, DoIssueForContext, DoIssueForTask, DoClaimSend, DoGiveUpTask,
      DoAcceptReceipt, DoReadOutcome, DoReadVerdict;
    R.FirstTask(0, c.tasks);
  }

  lemma ToTaskTicket(c: Config)
    requires c.Valid()
    ensures var s := WithTask(c, DeliveredTask(c)); var step := IssueForTask(TaskRef(), TaskID(), Ticket(), 0);
      Enabled(s, step, 0, c) && Next(s, step, 0, c) == WithTaskTicket(c)
  {
    hide Enabled, Next, T.WithWritable, W.IssueTask, Opaque, DeliveredTask;
    Names();
    ConfirmsFirst(c);
    TaskGrants(c);
    IsIssueForTask(WithTask(c, DeliveredTask(c)), TaskRef(), TaskID(), Ticket(), 0, 0, c);
  }

  lemma ToSecondTaskTicket(c: Config)
    requires c.Valid()
    ensures var ttl := c.tasks.ttl; var step := IssueForTask(TaskRef(), TaskID(), OtherTicket(), ttl);
      Enabled(WithTaskTicket(c), step, 0, c)
      && Next(WithTaskTicket(c), step, 0, c).issued == WithTaskTicket(c).issued[OtherTicket() := W.TaskTarget(Info(c), OtherTicket(), ttl)]
  {
    hide Enabled, Next, T.WithWritable, W.IssueTask, Opaque, DeliveredTask;
    Names();
    ConfirmsFirst(c);
    TaskGrants(c);
    IsIssueForTask(WithTaskTicket(c), TaskRef(), TaskID(), OtherTicket(), 0, c.tasks.ttl, c);
  }

  /** A run that creates the task and delivers it. */
  lemma DeliveringRun(c: Config) returns (run: seq<Event>)
    requires c.Valid()
    ensures IsRun(0, run, c) && After(0, run, c) == WithTask(c, DeliveredTask(c))
  {
    hide Enabled, Next, After, IsRun, Opaque, T.Apply, R.OneTask, R.ReservedTask, DeliveredTask, Info;
    Empty(c);
    ToTask(c);
    Extend([], At(0, TaskCreation()), c);
    run := [] + [At(0, TaskCreation())];
    R.ReservesFirst(c.tasks);
    IsTaskStep(WithTask(c, R.OneTask(0, c.tasks)), Reservation(), 0, c);
    Extend(run, At(0, TaskStep(Reservation())), c);
    run := run + [At(0, TaskStep(Reservation()))];
    ConfirmsFirst(c);
    IsTaskStep(WithTask(c, R.ReservedTask(c.tasks)), T.DoConfirm(Delivery()), 0, c);
    Extend(run, At(0, TaskStep(T.DoConfirm(Delivery()))), c);
    run := run + [At(0, TaskStep(T.DoConfirm(Delivery())))];
  }

  /** Under every configuration there is a run that gives one task two tickets: it is writable when the
      second callback starts and has just expired when the callback reads its clock. */
  lemma TaskTwice(c: Config) returns (run: seq<Event>)
    requires c.Valid()
    ensures IsRun(0, run, c) && !OneTicketPerSource(After(0, run, c).issued)
    ensures var issued := After(0, run, c).issued;
      && Ticket() in issued && OtherTicket() in issued && Ticket() != OtherTicket()
      && issued[Ticket()].taskID == issued[OtherTicket()].taskID == TaskID()
  {
    hide Enabled, Next, After, IsRun, Opaque, DeliveredTask, Info, Ticket, OtherTicket;
    Names();
    run := DeliveringRun(c);
    ToTaskTicket(c);
    Extend(run, At(0, IssueForTask(TaskRef(), TaskID(), Ticket(), 0)), c);
    run := run + [At(0, IssueForTask(TaskRef(), TaskID(), Ticket(), 0))];
    ToSecondTaskTicket(c);
    Extend(run, At(0, IssueForTask(TaskRef(), TaskID(), OtherTicket(), c.tasks.ttl)), c);
    run := run + [At(0, IssueForTask(TaskRef(), TaskID(), OtherTicket(), c.tasks.ttl))];
    SampleIssuable(c);
    BothOfTask(After(0, run, c).issued, c);
  }

  lemma BothOfTask(issued: map<string, W.Target>, c: Config)
    requires Ticket() in issued && OtherTicket() in issued
    requires issued[Ticket()] == W.TaskTarget(Info(c), Ticket(), 0) && issued[OtherTicket()] == W.TaskTarget(Info(c), OtherTicket(), c.tasks.ttl)
    ensures issued[Ticket()].taskID == issued[OtherTicket()].taskID == TaskID() && !OneTicketPerSource(issued)
  {
    hide Opaque;
    Names();
    SampleIssuable(c);
    assert issued[Ticket()].taskID == issued[OtherTicket()].taskID == TaskID();
  }

  // A closed context whose snapshot lives on ------------------------------------------------

  /** A run in which somebody else's invalidation closes the context of a snapshot that stays active. */
  lemma ForeignInvalidation(c: Config) returns (run: seq<Event>)
    requires c.Valid()
    ensures IsRun(0, run, c)
    ensures var s := After(0, run, c); S.StatusOf(s.snaps, Context()) == S.Active && Context() in s.closed
  {
    hide Enabled, Next, After, IsRun, Inv, Opaque;
    Names();
    Empty(c);
    ToSnapshot(c);
    Extend([], At(0, CreateSnapshot(What(), Context(), "")), c);
    run := [] + [At(0, CreateSnapshot(What(), Context(), ""))];
    RunKeepsInv(0, run, c);
    InvalidationMissesExactly(WithSnapshot(c), Context(), 2, 0, 0, c);
    IsRetireSnapshot(WithSnapshot(c), Context(), 2, 0, c);
    Extend(run, At(0, RetireSnapshot(Context(), 2)), c);
    run := run + [At(0, RetireSnapshot(Context(), 2))];
    IsInvalidateContext(After(0, run, c), Context(), 0, c);
    Extend(run, At(0, InvalidateContext(Context())), c);
    run := run + [At(0, InvalidateContext(Context()))];
  }

  // Two open attempts for one result id -----------------------------------------------------

  function ResultID(): string { Opaque("arr_", 'A') }

  function Request(ref: string): W.Request {
    W.Request(ref, "", "a", 1, "a.v1", ResultID(), "", "{}")
  }

  /** The second snapshot, made when the first ticket ends. */
  function Later(c: Config): S.Info {
    S.Info(OtherContext(), What(), c.writebacks.ticketTTL, c.writebacks.ticketTTL + c.snapshots.ttl, 1)
  }

  function LaterSnapshots(c: Config): S.Table {
    S.Table(map[Context() := S.Snapshot(Made(c), S.Expired, Some(c.writebacks.ticketTTL)), OtherContext() := S.Snapshot(Later(c), S.Active, None)],
            map[Later(c).Owner() := OtherContext()])
  }

  lemma LaterIsCurrent(c: Config)
    requires c.Valid() && 1 < c.snapshots.maxEntries
    ensures var now := c.writebacks.ticketTTL;
      && S.VictimChosen(Snapshots(c), What(), "", now, c.snapshots)
      && S.Create(Snapshots(c), What(), OtherContext(), "", now, c.snapshots) == (LaterSnapshots(c), S.Stored(Later(c), ""))
      && S.WithCurrent(LaterSnapshots(c), OtherContext(), 1, now, c.snapshots) == (LaterSnapshots(c), S.Active)
  {
    hide Opaque, S.Cleanup;
    Names();
    LaterCleaned(c);
  }

  lemma LaterCleaned(c: Config)
    requires c.Valid()
    ensures var now := c.writebacks.ticketTTL;
      && S.Cleanup(Snapshots(c), now, c.snapshots) == S.Table(map[Context() := S.Snapshot(Made(c), S.Expired, Some(now))], map[])
      && S.Cleanup(LaterSnapshots(c), now, c.snapshots) == LaterSnapshots(c)
  {
    hide Opaque;
    Names();
    var now := c.writebacks.ticketTTL;
    var clean, kept := S.Cleanup(Snapshots(c), now, c.snapshots), S.Cleanup(LaterSnapshots(c), now, c.snapshots);
    assert clean.byRef == map[Context() := S.Snapshot(Made(c), S.Expired, Some(now))];
    assert clean.current == map[];
    assert kept.byRef == LaterSnapshots(c).byRef;
    assert kept.current == LaterSnapshots(c).current;
  }

  function FirstTarget(c: Config): W.Target {
    W.SnapshotTarget(Made(c), Ticket(), 0, c.writebacks)
  }

  function SecondTarget(c: Config): W.Target {
    W.SnapshotTarget(Later(c), OtherTicket(), c.writebacks.ticketTTL, c.writebacks)
  }

  /** An attempt that a submit at `now` starts. */
  function Started(target: W.Target, now: Time, c: Config): W.Attempt {
    W.Attempt(ResultID(), W.KeyOf(Request(target.ref), target), target, now + c.writebacks.deliveryTTL, target.expiresAt, now, None, false)
  }

  function FirstAttempt(c: Config): W.Attempt {
    Started(FirstTarget(c), c.writebacks.ticketTTL - 1, c)
  }

  function Submitted(c: Config): W.Table {
    Ticketed(Ticket(), 0, c).(deliveries := map[ResultID() := 0], attempts := [FirstAttempt(c)])
  }

  /** The first ticket is over; its attempt, still open, is in no table any more. */
  function Forgotten(c: Config): W.Table {
    W.EMPTY.(attempts := [FirstAttempt(c)])
  }

  function Reticketed(c: Config): W.Table {
    Forgotten(c).(tickets := map[OtherTicket() := SecondTarget(c)], byContext := map[OtherContext() := OtherTicket()])
  }

  lemma TicketStays(now: Time, c: Config)
    requires now < c.writebacks.ticketTTL
    ensures W.Cleanup(Ticketed(Ticket(), 0, c), now) == Ticketed(Ticket(), 0, c)
  {
    hide Opaque;
    Names();
    var clean := W.Cleanup(Ticketed(Ticket(), 0, c), now);
    assert clean.tickets == Ticketed(Ticket(), 0, c).tickets && clean.byContext == Ticketed(Ticket(), 0, c).byContext;
    assert clean.attempts == [] && clean.deliveries == map[];
  }

  lemma FirstSubmit(c: Config)
    requires c.Valid()
    ensures W.StartDelivery(Ticketed(Ticket(), 0, c), Request(Ticket()), FirstTarget(c), c.writebacks.ticketTTL - 1, c.writebacks).0 == Submitted(c)
  {
    hide Opaque, W.KeyOf, W.Cleanup, Made;
    Names();
    TicketStays(c.writebacks.ticketTTL - 1, c);
    assert [] + [FirstAttempt(c)] == [FirstAttempt(c)];
  }

  lemma SubmittedCleaned(c: Config)
    requires c.Valid() && 1 < c.writebacks.deliveryTTL
    ensures W.Cleanup(Submitted(c), c.writebacks.ticketTTL) == Forgotten(c)
  {
    hide Opaque, W.KeyOf;
    var clean := W.Cleanup(Submitted(c), c.writebacks.ticketTTL);
    assert clean.attempts == [FirstAttempt(c)];
    assert clean.deliveries == map[];
  }

  lemma LaterGrant(c: Config)
    requires c.Valid() && 1 < c.writebacks.deliveryTTL
    ensures W.IssueContext(Submitted(c), Later(c), OtherTicket(), c.writebacks.ticketTTL, c.writebacks) == (Reticketed(c), W.Granted(SecondTarget(c)))
  {
    hide Opaque, W.Cleanup, W.KeyOf, FirstAttempt;
    Names();
    SubmittedCleaned(c);
  }

  lemma SecondSubmit(c: Config)
    requires c.Valid()
    ensures var after := W.StartDelivery(Reticketed(c), Request(OtherTicket()), SecondTarget(c), c.writebacks.ticketTTL, c.writebacks).0;
      after.attempts == [FirstAttempt(c), Started(SecondTarget(c), c.writebacks.ticketTTL, c)]
  {
    hide Opaque, W.KeyOf, W.Cleanup;
    Names();
    ReticketedCleaned(c);
  }

  lemma ReticketedCleaned(c: Config)
    requires c.Valid()
    ensures var clean := W.Cleanup(Reticketed(c), c.writebacks.ticketTTL);
      clean.attempts == [FirstAttempt(c)] && clean.tickets == Reticketed(c).tickets && clean.deliveries == map[]
  {
    hide Opaque, W.KeyOf;
    Names();
  }

  function WithAttempt(c: Config): State {
    WithTicket(c).(clock := c.writebacks.ticketTTL - 1, wb := Submitted(c))
  }

  function WithLater(c: Config): State {
    WithAttempt(c).(clock := c.writebacks.ticketTTL, snaps := LaterSnapshots(c), made := WithTicket(c).made[OtherContext() := Later(c)])
  }

  function WithLaterTicket(c: Config): State {
    WithLater(c).(wb := Reticketed(c), issued := WithTicket(c).issued[OtherTicket() := SecondTarget(c)])
  }

  lemma ToAttempt(c: Config)
    requires c.Valid()
    ensures var step, now := Submit(Request(Ticket()), FirstTarget(c)), c.writebacks.ticketTTL - 1;
      Enabled(WithTicket(c), step, now, c) && Next(WithTicket(c), step, now, c) == WithAttempt(c)
  {
    hide Enabled, Next, W.StartDelivery, Opaque;
    FirstSubmit(c);
    IsSubmit(WithTicket(c), Request(Ticket()), FirstTarget(c), c.writebacks.ticketTTL - 1, c);
  }

  lemma ToLater(c: Config)
    requires c.Valid() && 1 < c.snapshots.maxEntries
    ensures var step, now := CreateSnapshot(What(), OtherContext(), ""), c.writebacks.ticketTTL;
      Enabled(WithAttempt(c), step, now, c) && Next(WithAttempt(c), step, now, c) == WithLater(c)
  {
    hide Enabled, Next, S.Create, S.VictimChosen, Opaque, Submitted;
    Names();
    LaterIsCurrent(c);
    IsCreateSnapshot(WithAttempt(c), What(), OtherContext(), "", c.writebacks.ticketTTL, c);
  }

  lemma ToLaterTicket(c: Config)
    requires c.Valid() && 1 < c.snapshots.maxEntries && 1 < c.writebacks.deliveryTTL
    ensures var now := c.writebacks.ticketTTL; var step := IssueForContext(OtherContext(), 1, OtherTicket(), now);
      Enabled(WithLater(c), step, now, c) && Next(WithLater(c), step, now, c) == WithLaterTicket(c)
  {
    hide Enabled, Next, S.WithCurrent, W.IssueContext, Opaque, Submitted;
    Names();
    LaterIsCurrent(c);
    LaterGrant(c);
    IsIssueForContext(WithLater(c), OtherContext(), 1, OtherTicket(), c.writebacks.ticketTTL, c.writebacks.ticketTTL, c);
  }

  /** If a wait for a delivery is longer than one tick of the clock, there is a run in which two attempts
      for one result id are open: the ticket of the first ends before its wait does, and the table has
      forgotten it when the second starts. */
  lemma TwoOpenAttempts(c: Config) returns (run: seq<Event>)
    requires c.Valid() && 1 < c.snapshots.maxEntries && 1 < c.writebacks.deliveryTTL
    ensures IsRun(0, run, c)
    ensures var a := After(0, run, c).wb.attempts; |a| == 2 && a[0].resultID == a[1].resultID && a[0].Open() && a[1].Open()
  {
    hide Enabled, Next, After, IsRun, Opaque, WithTicket, WithAttempt, WithLater, W.StartDelivery, Made, What, Request, FirstTarget, SecondTarget;
    var now := c.writebacks.ticketTTL;
    run := TicketRun(c);
    ToAttempt(c);
    Extend(run, At(now - 1, Submit(Request(Ticket()), FirstTarget(c))), c);
    run := run + [At(now - 1, Submit(Request(Ticket()), FirstTarget(c)))];
    ToLater(c);
    Extend(run, At(now, CreateSnapshot(What(), OtherContext(), "")), c);
    run := run + [At(now, CreateSnapshot(What(), OtherContext(), ""))];
    ToLaterTicket(c);
    Extend(run, At(now, IssueForContext(OtherContext(), 1, OtherTicket(), now)), c);
    run := run + [At(now, IssueForContext(OtherContext(), 1, OtherTicket(), now))];
    ToSecondAttempt(c);
    Extend(run, At(now, Submit(Request(OtherTicket()), SecondTarget(c))), c);
    run := run + [At(now, Submit(Request(OtherTicket()), SecondTarget(c)))];
  }

  lemma TicketRun(c: Config) returns (run: seq<Event>)
    requires c.Valid()
    ensures IsRun(0, run, c) && After(0, run, c) == WithTicket(c)
  {
    hide Enabled, Next, After, IsRun, Opaque;
    Names();
    Empty(c);
    ToSnapshot(c);
    Extend([], At(0, CreateSnapshot(What(), Context(), "")), c);
    run := [] + [At(0, CreateSnapshot(What(), Context(), ""))];
    ToTicket(c);
    Extend(run, At(0, IssueForContext(Context(), 1, Ticket(), 0)), c);
    run := run + [At(0, IssueForContext(Context(), 1, Ticket(), 0))];
  }

  lemma ToSecondAttempt(c: Config)
    requires c.Valid()
    ensures var step, now := Submit(Request(OtherTicket()), SecondTarget(c)), c.writebacks.ticketTTL;
      && Enabled(WithLaterTicket(c), step, now, c)
      && (var a := Next(WithLaterTicket(c), step, now, c).wb.attempts;
          |a| == 2 && a[0].resultID == a[1].resultID && a[0].Open() && a[1].Open())
  {
    hide Enabled, Next, W.StartDelivery, Opaque, WithLater, W.KeyOf;
    SecondSubmit(c);
    WithLaterClock(c);
    IsSubmit(WithLaterTicket(c), Request(OtherTicket()), SecondTarget(c), c.writebacks.ticketTTL, c);
  }

  lemma WithLaterClock(c: Config)
    ensures WithLaterTicket(c).clock == c.writebacks.ticketTTL
  {
  }

  // A revision that starts over -------------------------------------------------------------

  /** The entry the store evicts if it has room for one snapshot only. */
  function LaterVictim(c: Config): string {
    if c.snapshots.maxEntries == 1 then Context() else ""
  }

  lemma LaterIsFirst(c: Config)
    requires c.Valid()
    ensures var now := c.writebacks.ticketTTL;
      && S.VictimChosen(Snapshots(c), What(), LaterVictim(c), now, c.snapshots)
      && S.Create(Snapshots(c), What(), OtherContext(), LaterVictim(c), now, c.snapshots).1 == S.Stored(Later(c), "")
  {
    hide Opaque, S.Cleanup;
    Names();
    LaterCleaned(c);
  }

  /** Under every configuration there is a run that stores two snapshots of one actor and topic, both with
      revision 1: the first has expired when the second is made. */
  lemma RevisionRestarts(c: Config) returns (run: seq<Event>)
    requires c.Valid()
    ensures IsRun(0, run, c) && |run| == 2
    ensures run[0].step == CreateSnapshot(What(), Context(), "") && run[1].step == CreateSnapshot(What(), OtherContext(), LaterVictim(c))
    ensures var made := After(0, run, c).made;
      Context() in made && OtherContext() in made && made[Context()].revision == made[OtherContext()].revision == 1
  {
    hide Enabled, Next, After, IsRun, Opaque, S.Create, S.VictimChosen;
    Names();
    Empty(c);
    ToSnapshot(c);
    Extend([], At(0, CreateSnapshot(What(), Context(), "")), c);
    run := [] + [At(0, CreateSnapshot(What(), Context(), ""))];
    LaterIsFirst(c);
    var later := CreateSnapshot(What(), OtherContext(), LaterVictim(c));
    IsCreateSnapshot(WithSnapshot(c), What(), OtherContext(), LaterVictim(c), c.writebacks.ticketTTL, c);
    Extend(run, At(c.writebacks.ticketTTL, later), c);
    run := run + [At(c.writebacks.ticketTTL, later)];
  }

  // An applied result for a task that has failed --------------------------------------------

  function TaskTarget(c: Config): W.Target { W.TaskTarget(Info(c), Ticket(), 0) }

  function TaskRequest(): W.Request {
    W.Request(Ticket(), TaskID(), "a", 1, "a.v1", ResultID(), "", "{}")
  }

  /** The writeback store with one attempt for the task. */
  function TaskAttempted(claimed: bool, c: Config): W.Table {
    TaskTicketed(Ticket(), 0, c).(
      deliveries := map[ResultID() := 0],
      attempts := [W.Attempt(ResultID(), W.KeyOf(TaskRequest(), TaskTarget(c)), TaskTarget(c), c.writebacks.deliveryTTL, c.tasks.ttl, 0, None, claimed)])
  }

  lemma TaskSubmit(c: Config)
    requires c.Valid()
    ensures W.StartDelivery(TaskTicketed(Ticket(), 0, c), TaskRequest(), TaskTarget(c), 0, c.writebacks).0 == TaskAttempted(false, c)
  {
    hide Opaque, W.KeyOf, W.Cleanup, Info;
    TaskTicketStays(c);
    SampleIssuable(c);
    var after := W.StartDelivery(TaskTicketed(Ticket(), 0, c), TaskRequest(), TaskTarget(c), 0, c.writebacks).0;
    assert after.attempts == TaskAttempted(false, c).attempts;
  }

  lemma TaskTicketStays(c: Config)
    requires c.Valid()
    ensures Info(c).expiresAt == c.tasks.ttl
    ensures W.Cleanup(TaskTicketed(Ticket(), 0, c), 0) == TaskTicketed(Ticket(), 0, c)
  {
    hide Opaque;
    var clean := W.Cleanup(TaskTicketed(Ticket(), 0, c), 0);
    assert clean.tickets == TaskTicketed(Ticket(), 0, c).tickets && clean.byTask == TaskTicketed(Ticket(), 0, c).byTask;
    assert clean.attempts == [] && clean.deliveries == map[];
  }

  lemma TaskClaim(c: Config)
    requires c.Valid()
    ensures W.Claim(TaskAttempted(false, c), 0, 0) == (TaskAttempted(true, c), true)
  {
    hide Opaque, W.KeyOf, W.Cleanup, Info;
    TaskTicketStays(c);
    TaskAttemptStays(c);
    assert W.ClaimListed(TaskAttempted(false, c), 0, 0).0.attempts == TaskAttempted(true, c).attempts;
  }

  lemma TaskAttemptStays(c: Config)
    requires c.Valid()
    ensures W.Cleanup(TaskAttempted(false, c), 0) == TaskAttempted(false, c)
  {
    hide Opaque, W.KeyOf, Info;
    TaskTicketStays(c);
    var t := TaskAttempted(false, c);
    var clean := W.Cleanup(t, 0);
    assert clean.tickets == t.tickets && clean.byTask == t.byTask;
    assert clean.attempts == t.attempts && clean.deliveries == t.deliveries;
  }

  function Said(): Outcome { Outcome(Applied, "", "", "{}") }

  function TaskReceipt(c: Config): W.Receipt {
    var x := TaskTarget(c);
    W.Receipt(x.actorUID, "", x.taskID, x.ref, x.topicID, x.agentUID, x.artifactID, x.displayedVersion, ResultID(), Some(Said()))
  }

  lemma TaskAnswer(c: Config)
    ensures W.Accepts(TaskAttempted(true, c), TaskReceipt(c), TaskTarget(c).previewRoute) && W.ReceiptOutcome(TaskReceipt(c)) == Said()
    ensures var after := W.CompleteReceipt(TaskAttempted(true, c), TaskReceipt(c), TaskTarget(c).previewRoute).0;
      W.OutcomeOf(after, ResultID()) == Some(Said())
  {
    hide Opaque, W.KeyOf;
  }

  function AgentFails(): T.Op {
    T.DoObserve(TaskRef(), 1, "t", "run", "failed", "")
  }

  lemma AgentFailsTask(c: Config)
    requires c.Valid()
    ensures var after := T.Apply(DeliveredTask(c), AgentFails(), 0, c.tasks);
      TaskID() in after.byID && after.byID[TaskID()].status == T.Failed
  {
    hide Opaque, OpaqueID, T.Cleanup, TrimSpace, Truncate;
    R.ConfirmsFirst(c.tasks);
  }

  lemma ToTaskSubmit(c: Config)
    requires c.Valid()
    ensures var s, step := WithTaskTicket(c), Submit(TaskRequest(), TaskTarget(c));
      Enabled(s, step, 0, c) && Next(s, step, 0, c) == s.(wb := TaskAttempted(false, c))
  {
    hide Enabled, Next, W.StartDelivery, Opaque, TaskTicketed, DeliveredTask;
    TaskSubmit(c);
    IsSubmit(WithTaskTicket(c), TaskRequest(), TaskTarget(c), 0, c);
  }

  lemma ToTaskClaim(c: Config)
    requires c.Valid()
    ensures var s, step := WithTaskTicket(c).(wb := TaskAttempted(false, c)), ClaimSend(0, 0);
      Enabled(s, step, 0, c) && Next(s, step, 0, c) == s.(wb := TaskAttempted(true, c))
  {
    hide Enabled, Next, DoClaimSend, Opaque, DeliveredTask, W.KeyOf, TaskTarget, TaskTicketed;
    SendIsClaimed(c);
    IsClaimSend(WithTaskTicket(c).(wb := TaskAttempted(false, c)), 0, 0, 0, c);
  }

  lemma SendIsClaimed(c: Config)
    requires c.Valid()
    ensures var s := WithTaskTicket(c).(wb := TaskAttempted(false, c));
      |s.wb.attempts| == 1 && DoClaimSend(s, 0, 0, 0, c) == s.(wb := TaskAttempted(true, c))
  {
    hide W.Claim, T.WithWritable, Opaque, DeliveredTask, W.KeyOf, TaskTicketed;
    TaskClaim(c);
    ConfirmsFirst(c);
    SampleIssuable(c);
  }

  /** The agent has failed after the send. */
  function WithFailure(c: Config): State {
    WithTaskTicket(c).(wb := TaskAttempted(true, c), tasks := T.Apply(DeliveredTask(c), AgentFails(), 0, c.tasks))
  }

  /** A run up to there. */
  lemma FailingRun(c: Config) returns (run: seq<Event>)
    requires c.Valid()
    ensures IsRun(0, run, c) && After(0, run, c) == WithFailure(c)
  {
    hide Enabled, Next, After, IsRun, Opaque, DeliveredTask, Info, T.Apply, TaskAttempted, TaskTicketed, TaskTarget, TaskRequest;
    Names();
    run := DeliveringRun(c);
    ToTaskTicket(c);
    Extend(run, At(0, IssueForTask(TaskRef(), TaskID(), Ticket(), 0)), c);
    run := run + [At(0, IssueForTask(TaskRef(), TaskID(), Ticket(), 0))];
    ToTaskSubmit(c);
    Extend(run, At(0, Submit(TaskRequest(), TaskTarget(c))), c);
    run := run + [At(0, Submit(TaskRequest(), TaskTarget(c)))];
    ToTaskClaim(c);
    Extend(run, At(0, ClaimSend(0, 0)), c);
    run := run + [At(0, ClaimSend(0, 0))];
    IsTaskStep(After(0, run, c), AgentFails(), 0, c);
    Extend(run, At(0, TaskStep(AgentFails())), c);
    run := run + [At(0, TaskStep(AgentFails()))];
  }

  lemma ToAnswer(s: State, c: Config)
    requires s == WithFailure(c)
    ensures var step := AcceptReceipt(TaskReceipt(c), TaskTarget(c).previewRoute); var after := Next(s, step, 0, c);
      && Enabled(s, step, 0, c) && after.tasks == s.tasks && after.clock == 0 && (TaskID(), ResultID()) in after.receipts
      && W.OutcomeOf(after.wb, ResultID()) == Some(Said())
  {
    hide Enabled, Next, Opaque, DeliveredTask, Info, T.Apply, TaskAttempted, TaskTicketed, TaskTarget, W.OutcomeOf, W.Accepts, Said;
    TaskAnswer(c);
    ReceiptIsForTask(c);
    IsAcceptReceipt(s, TaskReceipt(c), TaskTarget(c).previewRoute, 0, c);
  }

  lemma ReceiptIsForTask(c: Config)
    ensures TaskReceipt(c).taskID == TaskID() != "" && TaskReceipt(c).resultID == ResultID()
  {
    hide Opaque;
    SampleIssuable(c);
  }

  /** Under every configuration there is a run in which a result that the application has applied leaves
      its task failed: the agent reported its failure between the send and the receipt. */
  lemma AppliedButFailed(c: Config) returns (run: seq<Event>, v: Verdict)
    requires c.Valid()
    ensures IsRun(0, run, c) && run != [] && run[|run| - 1].step == CompleteTask(v)
    ensures v.taskID == TaskID() && OpaqueID("arr_", v.resultID) && v.outcome.status == Applied
    ensures !T.CompletedAs(After(0, run, c).tasks, v.taskID, v.resultID)
  {
    hide Enabled, Next, After, IsRun, Opaque, OpaqueID, T.CompleteResult, WithFailure, TaskReceipt, TaskTarget, W.OutcomeOf;
    run := FailingRun(c);
    ToAnswer(After(0, run, c), c);
    var answer, read := At(0, AcceptReceipt(TaskReceipt(c), TaskTarget(c).previewRoute)), At(0, ReadOutcome(TaskID(), ResultID()));
    Extend(run, answer, c);
    run := run + [answer];
    IsReadOutcome(After(0, run, c), TaskID(), ResultID(), 0, c);
    Extend(run, read, c);
    run := run + [read];
    v := Verdict(TaskID(), ResultID(), Said());
    var s := After(0, run, c);
    FailureStands(s, c);
    IsCompleteTask(s, v, 0, c);
    T.CompleteResultExactly(s.tasks, TaskID(), ResultID(), Said(), 0, c.tasks);
    Extend(run, At(0, CompleteTask(v)), c);
    run := run + [At(0, CompleteTask(v))];
  }

  lemma FailureStands(s: State, c: Config)
    requires c.Valid() && s.tasks == WithFailure(c).tasks
    ensures !T.LiveAt(s.tasks, TaskID(), 0, c.tasks) && !T.CompletedAs(s.tasks, TaskID(), ResultID())
  {
    hide T.Apply, Opaque, DeliveredTask, TaskAttempted;
    AgentFailsTask(c);
  }
}
