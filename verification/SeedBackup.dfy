/**
 * The main screen around the recovery phrase overlay. It holds one overlay at a time and gives it every message that
 * arrives while it is open, including the answer to a password check that an earlier overlay asked for.
 */
module SeedBackup {
  import opened Text
  import opened SeedOverlay

  datatype Mode = Normal | ConfirmCreate | ConfirmDelete | Seed

  /** What is under way. */
  datatype Task =
    | Checking(password: string)
    | Answer(answer: Result<string, string>)
    | ConfirmedMsg(phrase: string)
    | CloseMsg
    | Saving(phrase: string)
    | Created(ok: bool)
    | Deleting

  datatype Entry = OpenedBackup(phrase: string, picks: (nat, nat)) | Typed(word: string) | Saved(phrase: string)

  datatype World = World(mode: Mode, seed: Overlay, bag: multiset<Task>, log: seq<Entry>, panicked: bool)

  datatype Event =
    | AskCreate
    | AskDelete
    | Decline
    | Delete
    | OpenBackup(phrase: string, first: nat, second: nat)
    | OpenReveal
    | Key(msg: Msg)
    | Check(task: Task, answer: Result<string, string>)
    | Save(task: Task, ok: bool)
    | Deliver(task: Task)
    | Lose(task: Task)

  function Start(): World {
    World(Normal, NewReveal(), multiset{}, [], false)
  }

  function Begun(out: Option<Out>): multiset<Task> {
    match out
    case None => multiset{}
    case Some(Close) => multiset{CloseMsg}
    case Some(Check(pw)) => multiset{Checking(pw)}
    case Some(Confirmed(phrase)) => multiset{ConfirmedMsg(phrase)}
  }

  function Noted(m: Overlay, msg: Msg): seq<Entry> {
    if msg.Enter? && m.step.Quiz? then [Typed(Answered(m))] else []
  }

  /** The overlay handles a message. */
  function Handle(w: World, msg: Msg): World {
    if Panics(w.seed, msg) then w.(panicked := true)
    else
      var (m, out) := Updated(w.seed, msg);
      w.(seed := m, bag := w.bag + Begun(out), log := w.log + Noted(w.seed, msg))
  }

  function Deliver1(w: World, t: Task): World {
    match t
    case Answer(a) => if w.mode.Seed? then Handle(w, Revealed(a)) else w
    case ConfirmedMsg(p) => w.(bag := w.bag + multiset{Saving(p)})
    case CloseMsg => w.(mode := Normal)
    case Created(_) => w.(mode := Normal)
    case Deleting => w.(mode := Normal) // its answer, whatever is on screen by then
    case _ => w.(bag := w.bag + multiset{t}) // still running
  }

  predicate Drawn(phrase: string, first: nat, second: nat) {
    |Fields(phrase)| >= 2 && first < |Fields(phrase)| && second < |Fields(phrase)| - 1
  }

  /** One step. An event that is not possible changes nothing. */
  function Step(w: World, e: Event): World {
    if w.panicked then w else
    match e
    case AskCreate => if w.mode.Normal? then w.(mode := ConfirmCreate) else w
    case AskDelete => if w.mode.Normal? then w.(mode := ConfirmDelete) else w
    case Decline => if w.mode.ConfirmCreate? || w.mode.ConfirmDelete? then w.(mode := Normal) else w
    case Delete => if w.mode.ConfirmDelete? then w.(bag := w.bag + multiset{Deleting}) else w
    case OpenBackup(p, a, b) =>
      if w.mode.ConfirmCreate? && Drawn(p, a, b)
      then w.(mode := Seed, seed := NewBackup(p, Picks(a, b)), log := w.log + [OpenedBackup(p, Picks(a, b))]) else w
    case OpenReveal => if w.mode.Normal? then w.(mode := Seed, seed := NewReveal()) else w
    case Key(msg) => if w.mode.Seed? && !msg.Revealed? then Handle(w, msg) else w
    case Check(t, a) => if t in w.bag && t.Checking? then w.(bag := w.bag - multiset{t} + multiset{Answer(a)}) else w
    case Save(t, ok) =>
      if t in w.bag && t.Saving?
      then w.(bag := w.bag - multiset{t} + multiset{Created(ok)}, log := w.log + [Saved(t.phrase)]) else w
    case Deliver(t) => if t in w.bag then Deliver1(w.(bag := w.bag - multiset{t}), t) else w
    case Lose(t) => w.(bag := w.bag - multiset{t})
  }

  function Run(w: World, events: seq<Event>): World {
    if events == [] then w else Step(Run(w, events[..|events| - 1]), events[|events| - 1])
  }

  lemma OneMore(w: World, es: seq<Event>, e: Event)
    ensures Run(w, es + [e]) == Step(Run(w, es), e)
  {
    assert (es + [e])[..|es|] == es;
    hide Step;
  }

  // ---------------------------------------------------------------- the log

  /** The last backup opened. */
  function Opening(log: seq<Entry>): (e: Option<Entry>)
    ensures e.Some? ==> e.value.OpenedBackup?
  {
    if log == [] then None
    else if log[|log| - 1].OpenedBackup? then Some(log[|log| - 1])
    else Opening(log[..|log| - 1])
  }

  /** The words typed since. */
  function Answers(log: seq<Entry>): seq<string> {
    if log == [] || log[|log| - 1].OpenedBackup? then []
    else Answers(log[..|log| - 1]) + if log[|log| - 1].Typed? then [log[|log| - 1].word] else []
  }

  predicate AnsweredInOrder(log: seq<Entry>, phrase: string, picks: (nat, nat)) {
    && Opening(log) == Some(OpenedBackup(phrase, picks)) && picks.0 < picks.1 < |Fields(phrase)|
    && InOrder(Answers(log), Fields(phrase)[picks.0], Fields(phrase)[picks.1])
  }

  /** At some time before, a backup of this phrase was open and both its picked words had been answered in order. */
  ghost predicate WasQuizzed(log: seq<Entry>, phrase: string) {
    exists n: nat, picks :: n <= |log| && AnsweredInOrder(log[..n], phrase, picks)
  }

  ghost predicate SavesWereQuizzed(log: seq<Entry>) {
    forall k :: 0 <= k < |log| && log[k].Saved? ==> WasQuizzed(log[..k], log[k].phrase)
  }

  lemma QuizzedStays(log: seq<Entry>, more: seq<Entry>, phrase: string)
    requires WasQuizzed(log, phrase)
    ensures WasQuizzed(log + more, phrase)
  {
    var n: nat, picks :| n <= |log| && AnsweredInOrder(log[..n], phrase, picks);
    assert (log + more)[..n] == log[..n];
  }

  lemma SavesStay(log: seq<Entry>, e: Entry)
    requires SavesWereQuizzed(log) && (e.Saved? ==> WasQuizzed(log, e.phrase))
    ensures SavesWereQuizzed(log + [e])
  {
    hide WasQuizzed;
    forall k | 0 <= k <= |log| && (log + [e])[k].Saved?
      ensures WasQuizzed((log + [e])[..k], (log + [e])[k].phrase)
    {
      assert (log + [e])[..k] == log[..k];
      assert log[..|log|] == log;
    }
  }

  // ---------------------------------------------------------------- backups opened with no check pending

  /** A password check is under way, or its answer is. */
  predicate IsCheck(t: Task) {
    t.Checking? || t.Answer?
  }

  ghost predicate NoCheckPending(bag: multiset<Task>) {
    forall t :: t in bag ==> !IsCheck(t)
  }

  /** Along the run, no backup was opened while a password check was pending. */
  ghost predicate Undisturbed(w: World, events: seq<Event>) {
    events == [] ||
      var n := |events| - 1;
      Undisturbed(w, events[..n]) && (events[n].OpenBackup? ==> NoCheckPending(Run(w, events[..n]).bag))
  }

  ghost predicate OverlayHolds(w: World) {
    if w.seed.backup then
      && NoCheckPending(w.bag) && Opening(w.log).Some?
      && QuizHolds(w.seed, Answers(w.log), Opening(w.log).value.phrase, Opening(w.log).value.picks)
    else !w.seed.step.Quiz? && !w.seed.step.Done?
  }

  ghost predicate TaskHolds(log: seq<Entry>, t: Task) {
    t.ConfirmedMsg? || t.Saving? ==> WasQuizzed(log, t.phrase)
  }

  ghost predicate Inv(w: World) {
    && !w.panicked && OverlayHolds(w) && SavesWereQuizzed(w.log)
    && forall t :: t in w.bag ==> TaskHolds(w.log, t)
  }

  lemma OpeningStep(log: seq<Entry>, e: Entry)
    ensures Opening(log + [e]) == if e.OpenedBackup? then Some(e) else Opening(log)
    ensures Answers(log + [e]) ==
      if e.OpenedBackup? then [] else if e.Typed? then Answers(log) + [e.word] else Answers(log)
  {
    assert (log + [e])[..|log|] == log;
  }

  /** The last right answer is what confirms. */
  lemma NowQuizzed(log: seq<Entry>, m: Overlay, picks: (nat, nat))
    requires QuizHolds(m, Answers(log), m.phrase, picks) && m.step.Done?
    requires Opening(log) == Some(OpenedBackup(m.phrase, picks))
    ensures WasQuizzed(log, m.phrase)
  {
    ProgressIsOrder(Answers(log), m.words[picks.0], m.words[picks.1]);
    hide InOrder, Progress, Opening, Answers, Fields;
    assert log[..|log|] == log;
    assert AnsweredInOrder(log[..|log|], m.phrase, picks);
  }

  lemma KeyLogged(log: seq<Entry>, m: Overlay, msg: Msg)
    requires SavesWereQuizzed(log)
    ensures var more := Noted(m, msg);
      && SavesWereQuizzed(log + more)
      && Opening(log + more) == Opening(log) && Answers(log + more) == Answers(log) + Answering(m, msg)
  {
    hide SavesWereQuizzed, Opening, Answers, Answered;
    if Noted(m, msg) == [] {
      assert log + [] == log && Answers(log) + [] == Answers(log);
    } else {
      var e := Typed(Answered(m));
      assert Noted(m, msg) == [e];
      SavesStay(log, e);
      OpeningStep(log, e);
    }
  }

  /** A key reaches the open backup: no check is asked for, and what it may confirm has been answered. */
  lemma BackupKeyed(w: World, msg: Msg) returns (out: Option<Out>)
    requires OverlayHolds(w) && w.seed.backup && SavesWereQuizzed(w.log) && !msg.Revealed?
    ensures var v := Handle(w, msg);
      && v == w.(seed := v.seed, bag := w.bag + Begun(out), log := w.log + Noted(w.seed, msg))
      && v.seed.backup && Opening(v.log).Some?
      && QuizHolds(v.seed, Answers(v.log), Opening(v.log).value.phrase, Opening(v.log).value.picks)
      && SavesWereQuizzed(v.log)
      && (out.Some? ==> out.value.Close? || (out.value.Confirmed? && WasQuizzed(v.log, out.value.phrase)))
  {
    var o := Opening(w.log).value;
    QuizStep(w.seed, Answers(w.log), o.phrase, o.picks, msg);
    KeyLogged(w.log, w.seed, msg);
    hide Opening, Answers, WasQuizzed, SavesWereQuizzed, Panics, Noted, Answering, NoCheckPending;
    out := Updated(w.seed, msg).1;
    hide Updated;
    var v := Handle(w, msg);
    assert v.seed.backup && v.seed.phrase == o.phrase;
    if out == Some(Confirmed(o.phrase)) {
      NowQuizzed(v.log, v.seed, o.picks);
    }
  }

  lemma BackupKey(w: World, msg: Msg)
    requires Inv(w) && w.seed.backup && !msg.Revealed?
    ensures Inv(Handle(w, msg))
  {
    var out := BackupKeyed(w, msg);
    var v := Handle(w, msg);
    hide Opening, Answers, WasQuizzed, SavesWereQuizzed, Noted, Handle, QuizHolds, TaskHolds, NoCheckPending;
    NoCheckBegun(w.bag, out);
    hide Begun;
    BagStays(w, v, Noted(w.seed, msg), out);
  }

  lemma NoCheckBegun(bag: multiset<Task>, out: Option<Out>)
    requires NoCheckPending(bag) && (out.Some? ==> !out.value.Check?)
    ensures NoCheckPending(bag + Begun(out))
  {}

  lemma BagStays(w: World, v: World, more: seq<Entry>, out: Option<Out>)
    requires v.bag == w.bag + Begun(out) && v.log == w.log + more
    requires forall t :: t in w.bag ==> TaskHolds(w.log, t)
    requires out.Some? && out.value.Confirmed? ==> WasQuizzed(v.log, out.value.phrase)
    ensures forall t :: t in v.bag ==> TaskHolds(v.log, t)
  {
    hide WasQuizzed;
    forall t | t in v.bag
      ensures TaskHolds(v.log, t)
    {
      if t in w.bag {
        TaskStays(w.log, more, t);
      }
    }
  }

  lemma TaskStays(log: seq<Entry>, more: seq<Entry>, t: Task)
    requires TaskHolds(log, t)
    ensures TaskHolds(log + more, t)
  {
    if t.ConfirmedMsg? || t.Saving? {
      QuizzedStays(log, more, t.phrase);
    }
  }

  /** Anything reaches an open reveal overlay. */
  lemma RevealMsg(w: World, msg: Msg)
    requires Inv(w) && !w.seed.backup
    ensures Inv(Handle(w, msg))
  {
    var v := Handle(w, msg);
    assert v.log == w.log + [] == w.log;
    assert Updated(w.seed, msg).1.Some? ==> !Updated(w.seed, msg).1.value.Confirmed?;
    hide WasQuizzed, SavesWereQuizzed, Opening, Answers, QuizHolds;
    BagStays(w, v, [], Updated(w.seed, msg).1);
  }

  lemma SaveHolds(w: World, t: Task, ok: bool)
    requires Inv(w) && t in w.bag && t.Saving?
    ensures Inv(w.(bag := w.bag - multiset{t} + multiset{Created(ok)}, log := w.log + [Saved(t.phrase)]))
  {
    var (e, bag) := (Saved(t.phrase), w.bag - multiset{t} + multiset{Created(ok)});
    assert TaskHolds(w.log, t);
    SavesStay(w.log, e);
    OpeningStep(w.log, e);
    TasksStay(w.log, [e], w.bag, bag);
    assert NoCheckPending(w.bag) ==> NoCheckPending(bag);
    hide WasQuizzed, SavesWereQuizzed, TaskHolds, NoCheckPending, QuizHolds, Opening, Answers;
  }

  lemma TasksStay(log: seq<Entry>, more: seq<Entry>, bag: multiset<Task>, bag': multiset<Task>)
    requires forall t :: t in bag ==> TaskHolds(log, t)
    requires forall t :: t in bag' ==> t in bag || (!t.ConfirmedMsg? && !t.Saving?)
    ensures forall t :: t in bag' ==> TaskHolds(log + more, t)
  {
    forall t | t in bag'
      ensures TaskHolds(log + more, t)
    {
      if t in bag {
        TaskStays(log, more, t);
      }
    }
  }

  lemma OpenHolds(w: World, p: string, a: nat, b: nat)
    requires Inv(w) && NoCheckPending(w.bag) && w.mode.ConfirmCreate? && Drawn(p, a, b)
    ensures Inv(Step(w, OpenBackup(p, a, b)))
  {
    var (v, e) := (Step(w, OpenBackup(p, a, b)), OpenedBackup(p, Picks(a, b)));
    SavesStay(w.log, e);
    OpeningStep(w.log, e);
    hide WasQuizzed, SavesWereQuizzed, Opening, Answers, Fields;
    BagStays(w, v, [e], None);
  }

  lemma StepHolds(w: World, e: Event)
    requires Inv(w) && (e.OpenBackup? ==> NoCheckPending(w.bag))
    ensures Inv(Step(w, e))
  {
    hide WasQuizzed, SavesWereQuizzed, Opening, Answers, QuizHolds, Fields, Drawn, Deliver1, Handle, TaskHolds;
    match e {
      case OpenBackup(p, a, b) =>
        if w.mode.ConfirmCreate? && Drawn(p, a, b) {
          OpenHolds(w, p, a, b);
        }
      case Key(msg) =>
        if w.mode.Seed? && !msg.Revealed? {
          if w.seed.backup {
            BackupKey(w, msg);
          } else {
            RevealMsg(w, msg);
          }
        }
      case Save(t, ok) =>
        if t in w.bag && t.Saving? {
          SaveHolds(w, t, ok);
        }
      case Deliver(t) =>
        if t in w.bag {
          DeliverHolds(w, t);
        }
      case _ => OtherHolds(w, e);
    }
  }

  lemma OtherHolds(w: World, e: Event)
    requires Inv(w) && !e.OpenBackup? && !e.Key? && !e.Save? && !e.Deliver?
    ensures Inv(Step(w, e))
  {
    hide WasQuizzed, SavesWereQuizzed, Opening, Answers, QuizHolds, TaskHolds, Handle, Deliver1;
    if !e.OpenReveal? {
      OtherEvent(w, e);
      hide Step;
      TaskIdle(w.log, Deleting);
      if e.Check? {
        TaskIdle(w.log, Answer(e.answer));
      }
      SameOverlay(w, Step(w, e));
    }
  }

  /** Everything but what the overlay handles, opens or saves leaves it alone. */
  lemma OtherEvent(w: World, e: Event)
    requires !e.OpenBackup? && !e.OpenReveal? && !e.Key? && !e.Save? && !e.Deliver?
    ensures var v := Step(w, e);
      && v.seed == w.seed && v.log == w.log && v.panicked == w.panicked
      && forall t :: t in v.bag ==>
           || t in w.bag || t == Deleting
           || (e.Check? && e.task in w.bag && e.task.Checking? && t == Answer(e.answer))
  {}

  /** The overlay and the log stay, and new tasks hold. */
  lemma SameOverlay(w: World, v: World)
    requires Inv(w) && v.seed == w.seed && v.log == w.log && v.panicked == w.panicked
    requires forall t :: t in v.bag ==> t in w.bag || (TaskHolds(w.log, t) && (IsCheck(t) ==> !w.seed.backup))
    ensures Inv(v)
  {
    hide WasQuizzed, SavesWereQuizzed, Opening, Answers, QuizHolds, TaskHolds, IsCheck;
  }

  lemma TaskIdle(log: seq<Entry>, t: Task)
    requires !t.ConfirmedMsg? && !t.Saving?
    ensures TaskHolds(log, t)
  {}

  lemma DeliverHolds(w: World, t: Task)
    requires Inv(w) && t in w.bag
    ensures Inv(Step(w, Deliver(t)))
  {
    hide WasQuizzed, SavesWereQuizzed, Opening, Answers, QuizHolds, Handle;
    assert TaskHolds(w.log, t);
    if t.Answer? {
      assert IsCheck(t) && !w.seed.backup;
      if w.mode.Seed? {
        RevealMsg(w.(bag := w.bag - multiset{t}), Revealed(t.answer));
      }
    }
  }

  lemma {:induction false} RunHolds(events: seq<Event>)
    requires Undisturbed(Start(), events)
    ensures Inv(Run(Start(), events))
  {
    if events != [] {
      RunHolds(events[..|events| - 1]);
      hide Inv, Step;
      StepHolds(Run(Start(), events[..|events| - 1]), events[|events| - 1]);
    }
  }

  /**
   * Over every run in which no backup is opened while a password check is pending: nothing panics, and a phrase is
   * saved only after a backup of that very phrase was open and both its picked words were typed in order.
   */
  lemma SavedWasQuizzed(events: seq<Event>)
    requires Undisturbed(Start(), events)
    ensures var w := Run(Start(), events);
      !w.panicked && SavesWereQuizzed(w.log)
  {
    RunHolds(events);
  }

  // ---------------------------------------------------------------- exactly when a backup's phrase can be replaced

  /** Delivered to an open overlay, or once answered, this can put another phrase in its place. */
  predicate CouldReplace(t: Task, phrase: string) {
    t.Checking? || (t.Answer? && t.answer.Ok? && t.answer.value != phrase)
  }

  predicate OpensNothing(events: seq<Event>) {
    forall e :: e in events ==> !e.OpenBackup? && !e.OpenReveal?
  }

  predicate AsksNothing(m: Overlay) {
    m.backup ==> !m.step.Password?
  }

  lemma HandleAsksNothing(w: World, msg: Msg)
    requires AsksNothing(w.seed)
    ensures AsksNothing(Handle(w, msg).seed)
  {
    hide Fields, TrimSpace, Lower, Noted, Begun;
  }

  lemma StepAsksNothing(w: World, e: Event)
    requires AsksNothing(w.seed)
    ensures AsksNothing(Step(w, e).seed)
  {
    hide Fields, Handle, AsksNothing, Drawn, Picks;
    match e {
      case Key(msg) =>
        HandleAsksNothing(w, msg);
      case Deliver(t) =>
        if t.Answer? {
          HandleAsksNothing(w.(bag := w.bag - multiset{t}), Revealed(t.answer));
        }
      case OpenBackup(p, a, b) =>
        assert AsksNothing(NewBackup(p, Picks(a, b))) by {
          BackupAsksNothing(p, Picks(a, b));
        }
      case OpenReveal =>
        BackupAsksNothing("", (0, 0));
      case _ =>
    }
  }

  lemma BackupAsksNothing(p: string, picks: (nat, nat))
    ensures AsksNothing(NewBackup(p, picks)) && AsksNothing(NewReveal())
  {
    hide Fields;
  }

  lemma {:induction false} BackupNeverAsks(events: seq<Event>)
    ensures AsksNothing(Run(Start(), events).seed)
  {
    if events == [] {
      BackupAsksNothing("", (0, 0));
    } else {
      BackupNeverAsks(events[..|events| - 1]);
      hide AsksNothing, Step;
      StepAsksNothing(Run(Start(), events[..|events| - 1]), events[|events| - 1]);
    }
  }

  ghost predicate Keeps(w: World, phrase: string) {
    && w.seed.backup && !w.seed.step.Password? && w.seed.phrase == phrase
    && forall t :: t in w.bag ==> !CouldReplace(t, phrase)
  }

  lemma HandleKeeps(w: World, phrase: string, msg: Msg)
    requires Keeps(w, phrase)
    requires msg.Revealed? && msg.answer.Ok? ==> msg.answer.value == phrase
    ensures Keeps(Handle(w, msg), phrase)
  {
    hide Fields, TrimSpace, Lower, Noted;
    if !Panics(w.seed, msg) {
      var (m, out) := Updated(w.seed, msg);
      assert out.Some? ==> !out.value.Check?;
      assert m.backup && !m.step.Password? && m.phrase == phrase;
      hide Updated;
    }
  }

  lemma StepKeeps(w: World, phrase: string, e: Event)
    requires Keeps(w, phrase) && !e.OpenBackup? && !e.OpenReveal?
    ensures Keeps(Step(w, e), phrase)
  {
    match e {
      case Key(msg) =>
        if !msg.Revealed? {
          HandleKeeps(w, phrase, msg);
        }
        hide Handle, Keeps;
      case Deliver(t) =>
        DeliverKeeps(w, phrase, t);
      case Save(_, _) =>
        hide Handle, Deliver1;
      case _ =>
        OtherEvent(w, e);
        hide Step;
    }
  }

  lemma DeliverKeeps(w: World, phrase: string, t: Task)
    requires Keeps(w, phrase)
    ensures Keeps(Step(w, Deliver(t)), phrase)
  {
    hide Fields, Handle;
    if t in w.bag && t.Answer? {
      assert !CouldReplace(t, phrase);
      HandleKeeps(w.(bag := w.bag - multiset{t}), phrase, Revealed(t.answer));
    }
  }

  lemma {:induction false} RunKeeps(w: World, phrase: string, events: seq<Event>)
    requires Keeps(w, phrase) && OpensNothing(events)
    ensures Keeps(Run(w, events), phrase)
  {
    if events != [] {
      var n := |events| - 1;
      RunKeeps(w, phrase, events[..n]);
      hide Keeps, Step;
      assert events[n] in events;
      StepKeeps(Run(w, events[..n]), phrase, events[n]);
    }
  }

  lemma ReplacedByAnswer(w: World, a: Result<string, string>)
    requires !w.panicked && w.mode.Seed? && Answer(a) in w.bag && a.Ok?
    ensures Step(w, Deliver(Answer(a))).seed.phrase == a.value
  {
    hide Fields;
  }

  lemma Replacing(w: World, t: Task) returns (events: seq<Event>)
    requires !w.panicked && w.mode.Seed? && w.seed.backup && t in w.bag && CouldReplace(t, w.seed.phrase)
    ensures OpensNothing(events) && Run(w, events).seed.phrase != w.seed.phrase
  {
    if t.Answer? {
      events := [Deliver(t)];
      ReplacedByAnswer(w, t.answer);
      assert events[..0] == [] && Run(w, []) == w && Run(w, events) == Step(w, events[0]);
    } else {
      var other := w.seed.phrase + " ";
      var (e0, e1) := (Event.Check(t, Ok(other)), Deliver(Answer(Ok(other))));
      events := [e0, e1];
      var v := Step(w, e0);
      ReplacedByAnswer(v, Ok(other));
      assert events[..1] == [e0] && [e0][..0] == [];
      assert Run(w, []) == w && Run(w, [e0]) == v && Run(w, events) == Step(v, e1);
    }
  }

  /**
   * While a backup stays open its phrase can be replaced exactly when an earlier overlay's password check is
   * pending.
   */
  lemma ReplaceableExactlyWhenCheckPending(events: seq<Event>)
    requires var w := Run(Start(), events);
      !w.panicked && w.mode.Seed? && w.seed.backup
    ensures var w := Run(Start(), events);
      (exists more :: OpensNothing(more) && Run(w, more).seed.phrase != w.seed.phrase)
      <==> (exists t :: t in w.bag && CouldReplace(t, w.seed.phrase))
  {
    var w := Run(Start(), events);
    BackupNeverAsks(events);
    if t :| t in w.bag && CouldReplace(t, w.seed.phrase) {
      var more := Replacing(w, t);
    } else {
      forall more | OpensNothing(more)
        ensures Run(w, more).seed.phrase == w.seed.phrase
      {
        RunKeeps(w, w.seed.phrase, more);
      }
    }
  }

  /** And that can happen: closing a reveal overlay does not cancel its check. */
  lemma CheckOutlivesOverlay(password: string, phrase: string, a: nat, b: nat)
    requires 0 < |password| <= CHAR_LIMIT && Drawn(phrase, a, b)
    ensures exists events ::
      var w := Run(Start(), events);
      !w.panicked && w.mode.Seed? && w.seed == NewBackup(phrase, Picks(a, b)) && Checking(password) in w.bag
  {
    var events, w := OpenedOverCheck(password, phrase, a, b);
  }

  lemma OpenedOverCheck(password: string, phrase: string, a: nat, b: nat) returns (events: seq<Event>, w: World)
    requires 0 < |password| <= CHAR_LIMIT && Drawn(phrase, a, b)
    ensures w == Run(Start(), events)
    ensures !w.panicked && w.mode.Seed? && w.seed == NewBackup(phrase, Picks(a, b)) && Checking(password) in w.bag
  {
    var es, w3 := AskedForCheck(password);
    var es', w6 := ClosedAndAgain(es, w3, password);
    w := OpenedThen(w6, phrase, a, b);
    events := es' + [OpenBackup(phrase, a, b)];
    hide *;
    OneMore(Start(), es', OpenBackup(phrase, a, b));
  }

  lemma OpenedThen(w6: World, phrase: string, a: nat, b: nat) returns (w: World)
    requires !w6.panicked && w6.mode.ConfirmCreate? && Drawn(phrase, a, b)
    ensures w == Step(w6, OpenBackup(phrase, a, b))
    ensures !w.panicked && w.mode.Seed? && w.seed == NewBackup(phrase, Picks(a, b)) && w.bag == w6.bag
  {
    hide Fields, Picks, Drawn;
    w := Step(w6, OpenBackup(phrase, a, b));
  }

  lemma AskedForCheck(password: string) returns (es: seq<Event>, w: World)
    requires 0 < |password| <= CHAR_LIMIT
    ensures w == Run(Start(), es)
    ensures !w.panicked && w.mode.Seed? && w.seed.step.Password? && w.bag == multiset{Checking(password)}
  {
    var w1 := Step(Start(), OpenReveal);
    var w2 := Step(w1, Key(Edit(password)));
    w := Step(w2, Key(Enter));
    assert w1.seed == NewReveal() && w2.seed == NewReveal().(input := password);
    hide Step;
    assert Run(Start(), []) == Start();
    hide Run;
    OneMore(Start(), [], OpenReveal);
    OneMore(Start(), [] + [OpenReveal], Key(Edit(password)));
    OneMore(Start(), [] + [OpenReveal] + [Key(Edit(password))], Key(Enter));
    es := [] + [OpenReveal] + [Key(Edit(password))] + [Key(Enter)];
  }

  lemma ClosedAndAgain(es: seq<Event>, w3: World, password: string) returns (es': seq<Event>, w6: World)
    requires w3 == Run(Start(), es)
    requires !w3.panicked && w3.mode.Seed? && w3.seed.step.Password? && w3.bag == multiset{Checking(password)}
    ensures w6 == Run(Start(), es')
    ensures !w6.panicked && w6.mode.ConfirmCreate? && w6.bag == multiset{Checking(password)}
  {
    var w4 := EscPressed(w3);
    var w5 := Closed(w4, w3.bag);
    w6 := Step(w5, AskCreate);
    hide Step, Run;
    OneMore(Start(), es, Key(Esc));
    OneMore(Start(), es + [Key(Esc)], Deliver(CloseMsg));
    OneMore(Start(), es + [Key(Esc)] + [Deliver(CloseMsg)], AskCreate);
    es' := es + [Key(Esc)] + [Deliver(CloseMsg)] + [AskCreate];
  }

  lemma EscPressed(w: World) returns (v: World)
    requires !w.panicked && w.mode.Seed? && w.seed.step.Password?
    ensures v == Step(w, Key(Esc)) && !v.panicked && v.bag == w.bag + multiset{CloseMsg}
  {
    v := Step(w, Key(Esc));
  }

  lemma Closed(w: World, bag: multiset<Task>) returns (v: World)
    requires !w.panicked && w.bag == bag + multiset{CloseMsg}
    ensures v == Step(w, Deliver(CloseMsg)) && !v.panicked && v.mode.Normal? && v.bag == bag
  {
    v := Step(w, Deliver(CloseMsg));
  }

  // ---------------------------------------------------------------- exactly when a backup can panic

  /** The word asked for is not in this phrase; the third is in none. */
  predicate Lacks(phrase: string, pick: Option<nat>) {
    pick.None? || pick.value >= |Fields(phrase)|
  }

  /** Delivered to an open overlay, or once answered, this can bring a phrase that lacks the word asked for. */
  predicate Endangers(t: Task, pick: Option<nat>) {
    t.Checking? || (t.Answer? && t.answer.Ok? && Lacks(t.answer.value, pick))
  }

  /** The quiz of an open backup: after two right answers it is over, and before that the word asked for is there. */
  predicate InQuiz(m: Overlay) {
    && m.backup && !m.step.Password? && m.asked <= 2 && (m.step.Done? <==> m.asked == 2)
    && (m.asked < 2 ==> Asked(m).value < |m.words|)
  }

  /** Still at word `n`, which is there to stay; or past it. */
  ghost predicate SafeAt(w: World, n: nat, pick: Option<nat>) {
    || n < w.seed.asked <= 2
    || (&& !w.panicked && InQuiz(w.seed) && w.seed.asked == n && Asked(w.seed) == pick
        && forall t :: t in w.bag ==> !Endangers(t, pick))
  }

  lemma HandleIsSafe(w: World, n: nat, pick: Option<nat>, msg: Msg)
    requires SafeAt(w, n, pick)
    requires w.seed.asked == n && msg.Revealed? && msg.answer.Ok? ==> !Lacks(msg.answer.value, pick)
    ensures SafeAt(Handle(w, msg), n, pick)
  {
    hide Fields, TrimSpace, Lower, Noted;
  }

  lemma DeliverIsSafe(w: World, n: nat, pick: Option<nat>, t: Task)
    requires SafeAt(w, n, pick)
    ensures SafeAt(Step(w, Deliver(t)), n, pick)
  {
    hide Fields, Handle;
    if t in w.bag && t.Answer? {
      assert w.seed.asked == n ==> !Endangers(t, pick);
      HandleIsSafe(w.(bag := w.bag - multiset{t}), n, pick, Revealed(t.answer));
    }
  }

  lemma StepIsSafe(w: World, n: nat, pick: Option<nat>, e: Event)
    requires SafeAt(w, n, pick) && !e.OpenBackup? && !e.OpenReveal?
    ensures SafeAt(Step(w, e), n, pick)
  {
    hide Handle, Deliver1, InQuiz, Lacks, Asked;
    match e {
      case Key(msg) =>
        if !msg.Revealed? {
          HandleIsSafe(w, n, pick, msg);
        }
        hide SafeAt;
      case Deliver(t) =>
        DeliverIsSafe(w, n, pick, t);
        hide Step, SafeAt;
      case Save(t, ok) =>
      case _ =>
        OtherEvent(w, e);
        hide Step;
    }
  }

  lemma {:induction false} RunIsSafe(w: World, n: nat, pick: Option<nat>, events: seq<Event>)
    requires SafeAt(w, n, pick) && OpensNothing(events)
    ensures SafeAt(Run(w, events), n, pick)
  {
    if events != [] {
      var k := |events| - 1;
      RunIsSafe(w, n, pick, events[..k]);
      hide SafeAt, Step;
      assert events[k] in events;
      StepIsSafe(Run(w, events[..k]), n, pick, events[k]);
    }
  }

  /** A phrase that lacks the word asked for is shown, enter asks for the word, and the next one looks it up. */
  lemma LateAnswer(w: World, p: string) returns (events: seq<Event>)
    requires !w.panicked && w.mode.Seed? && w.seed.backup && Answer(Ok(p)) in w.bag && Lacks(p, Asked(w.seed))
    ensures OpensNothing(events) && Run(w, events).panicked && Run(w, events).seed.asked == w.seed.asked
  {
    var (e0, e1) := (Deliver(Answer(Ok(p))), Key(Enter));
    var w1 := ShownAgain(w, p);
    var w2 := AsksAgain(w1);
    var w3 := LooksUp(w2);
    assert Run(w, []) == w;
    hide Step, Run;
    OneMore(w, [], e0);
    OneMore(w, [] + [e0], e1);
    OneMore(w, [] + [e0] + [e1], e1);
    events := [] + [e0] + [e1] + [e1];
  }

  lemma ShownAgain(w: World, p: string) returns (v: World)
    requires !w.panicked && w.mode.Seed? && w.seed.backup && Answer(Ok(p)) in w.bag
    ensures v == Step(w, Deliver(Answer(Ok(p)))) && !v.panicked && v.mode.Seed? && v.seed.step.Show? && v.seed.backup
    ensures v.seed.words == Fields(p) && v.seed.asked == w.seed.asked && Asked(v.seed) == Asked(w.seed)
  {
    hide Fields;
    v := Step(w, Deliver(Answer(Ok(p))));
  }

  lemma AsksAgain(w: World) returns (v: World)
    requires !w.panicked && w.mode.Seed? && w.seed.step.Show? && w.seed.backup
    ensures v == Step(w, Key(Enter)) && v == w.(seed := w.seed.(step := Quiz))
  {
    v := Step(w, Key(Enter));
    assert v.bag == w.bag && v.log == w.log;
  }

  lemma LooksUp(w: World) returns (v: World)
    requires !w.panicked && w.mode.Seed? && w.seed.step.Quiz? && Panics(w.seed, Enter)
    ensures v == Step(w, Key(Enter)) && v.panicked && v.seed == w.seed
  {
    v := Step(w, Key(Enter));
  }

  lemma Endangered(w: World, t: Task) returns (events: seq<Event>)
    requires !w.panicked && w.mode.Seed? && w.seed.backup && t in w.bag && Endangers(t, Asked(w.seed))
    ensures OpensNothing(events) && Run(w, events).panicked && Run(w, events).seed.asked == w.seed.asked
  {
    if t.Answer? {
      events := LateAnswer(w, t.answer.value);
    } else {
      var e := Event.Check(t, Ok(""));
      var v := Step(w, e);
      var rest := LateAnswer(v, "");
      events := [e] + rest;
      hide Step, Fields;
      RunsOn(w, e, rest);
    }
  }

  /**
   * An open backup can panic at the word it asks for if and only if an earlier overlay's check is pending, or its
   * answer with a phrase of too few words.
   */
  lemma PanicsAtWordExactlyWhen(w: World)
    requires !w.panicked && w.mode.Seed? && InQuiz(w.seed)
    ensures (exists more :: OpensNothing(more) && Run(w, more).panicked && Run(w, more).seed.asked == w.seed.asked)
      <==> (exists t :: t in w.bag && Endangers(t, Asked(w.seed)))
  {
    if t :| t in w.bag && Endangers(t, Asked(w.seed)) {
      var more := Endangered(w, t);
    } else {
      forall more | OpensNothing(more) && Run(w, more).seed.asked == w.seed.asked
        ensures !Run(w, more).panicked
      {
        RunIsSafe(w, w.seed.asked, Asked(w.seed), more);
      }
    }
  }

  /**
   * Once its quiz is passed, a backup that stays open can still make the program panic, by looking up a third picked
   * word, if and only if an earlier overlay's check is pending, or its answer with a phrase.
   */
  lemma PanicsExactlyWhenCheckPending(w: World)
    requires !w.panicked && w.mode.Seed? && w.seed.backup && w.seed.step.Done? && w.seed.asked == 2
    ensures (exists more :: OpensNothing(more) && Run(w, more).panicked)
      <==> (exists t :: t in w.bag && (t.Checking? || (t.Answer? && t.answer.Ok?)))
  {
    assert forall t :: Endangers(t, None) <==> t.Checking? || (t.Answer? && t.answer.Ok?);
    if t :| t in w.bag && Endangers(t, None) {
      var more := Endangered(w, t);
    } else {
      forall more | OpensNothing(more)
        ensures !Run(w, more).panicked
      {
        RunIsSafe(w, 2, None, more);
      }
    }
  }

  lemma {:induction false} RunsOn(w: World, e: Event, rest: seq<Event>)
    ensures Run(w, [e] + rest) == Run(Step(w, e), rest)
  {
    hide Step;
    if rest == [] {
      OneMore(w, [], e);
      assert [] + [e] == [e] + rest;
    } else {
      var n := |rest| - 1;
      RunsOn(w, e, rest[..n]);
      OneMore(w, [e] + rest[..n], rest[n]);
      assert [e] + rest == [e] + rest[..n] + [rest[n]];
    }
  }

  // ---------------------------------------------------------------- and a passed quiz that does

  /** Typing the word as it is answers it. */
  predicate Typable(word: string) {
    |word| <= CHAR_LIMIT && Lower(TrimSpace(word)) == word
  }

  lemma Typing(w: World, text: string) returns (v: World)
    requires !w.panicked && w.mode.Seed? && w.seed.step.Quiz? && |text| <= CHAR_LIMIT
    ensures v == Step(w, Key(Edit(text))) && v == w.(seed := w.seed.(input := text))
  {
    v := Step(w, Key(Edit(text)));
    assert v.bag == w.bag && v.log == w.log;
  }

  lemma Entering(w: World) returns (v: World)
    requires !w.panicked && w.mode.Seed? && w.seed.step.Quiz? && w.seed.asked < 2 && !Panics(w.seed, Enter)
    requires Answered(w.seed) == w.seed.words[Asked(w.seed).value]
    ensures v == Step(w, Key(Enter)) && !v.panicked && v.mode.Seed?
    ensures v.seed == w.seed.(input := "", failed := false, asked := w.seed.asked + 1, step := v.seed.step)
    ensures v.seed.step == if w.seed.asked == 0 then Quiz else Done
    ensures v.bag == w.bag + if w.seed.asked == 0 then multiset{} else multiset{ConfirmedMsg(w.seed.phrase)}
  {
    hide Answered, Noted;
    v := Step(w, Key(Enter));
  }

  /** The word asked for is typed and entered. */
  lemma WordTyped(w: World, es: seq<Event>) returns (v: World, es': seq<Event>)
    requires w == Run(Start(), es) && !w.panicked && w.mode.Seed? && w.seed.step.Quiz? && w.seed.asked < 2
    requires Asked(w.seed).value < |w.seed.words| && Typable(w.seed.words[Asked(w.seed).value])
    ensures v == Run(Start(), es') && !v.panicked && v.mode.Seed? && v.seed.asked == w.seed.asked + 1
    ensures v.seed.backup == w.seed.backup && v.seed.words == w.seed.words && v.seed.picks == w.seed.picks
    ensures v.seed.phrase == w.seed.phrase
    ensures v.seed.step == if w.seed.asked == 0 then Quiz else Done
    ensures v.bag == w.bag + if w.seed.asked == 0 then multiset{} else multiset{ConfirmedMsg(w.seed.phrase)}
  {
    var word := w.seed.words[Asked(w.seed).value];
    var u := Typing(w, word);
    v := Entering(u);
    es' := es + [Key(Edit(word))] + [Key(Enter)];
    hide *;
    OneMore(Start(), es, Key(Edit(word)));
    OneMore(Start(), es + [Key(Edit(word))], Key(Enter));
  }

  /** A run that passes the quiz while an earlier overlay's check is pending, and from there to a panic. */
  lemma PassedQuizPanics(password: string, phrase: string, a: nat, b: nat)
    requires 0 < |password| <= CHAR_LIMIT && Drawn(phrase, a, b)
    requires Typable(Fields(phrase)[Picks(a, b).0]) && Typable(Fields(phrase)[Picks(a, b).1])
    ensures exists events, more ::
      var w := Run(Start(), events);
      && !w.panicked && w.seed.backup && w.seed.step.Done? && ConfirmedMsg(phrase) in w.bag
      && OpensNothing(more) && Run(w, more).panicked
  {
    var events, w := OpenedOverCheck(password, phrase, a, b);
    var w1 := AsksAgain(w);
    var es := events + [Key(Enter)];
    OneMore(Start(), events, Key(Enter));
    hide Fields, Typable, Step, Run;
    var w2, es2 := WordTyped(w1, es);
    var w3, es3 := WordTyped(w2, es2);
    assert Checking(password) in w3.bag;
    var more := Endangered(w3, Checking(password));
  }

  // ---------------------------------------------------------------- and a quiz that leads to a wallet

  /** What the keys of the main screen do; after a panic nothing does anything. */
  lemma MainScreenKeys(w: World, p: string, a: nat, b: nat)
    ensures w.panicked ==> forall e :: Step(w, e) == w
    ensures !w.panicked ==>
      && Step(w, AskCreate).mode == (if w.mode == Normal then ConfirmCreate else w.mode)
      && Step(w, AskDelete).mode == (if w.mode == Normal then ConfirmDelete else w.mode)
      && Step(w, Decline).mode == (if w.mode in {ConfirmCreate, ConfirmDelete} then Normal else w.mode)
      && Step(w, Delete).bag == w.bag + (if w.mode == ConfirmDelete then multiset{Deleting} else multiset{})
      && Step(w, Delete).mode == w.mode
      && Step(w, OpenReveal) == (if w.mode == Normal then w.(mode := Seed, seed := NewReveal()) else w)
      && (w.mode != ConfirmCreate ==> Step(w, OpenBackup(p, a, b)) == w)
      && (w.mode != Seed ==> forall msg :: Step(w, Key(msg)) == w)
  {
    hide Handle, Deliver1, Drawn;
    assert w.bag + multiset{} == w.bag;
  }

  /** What a task does when it arrives: some send the screen back to normal, whatever it shows. */
  lemma ArrivalMeaning(w: World, t: Task)
    requires !w.panicked && t in w.bag
    ensures var (v, rest) := (Step(w, Deliver(t)), w.bag - multiset{t});
      && (t.CloseMsg? || t.Created? || t.Deleting? ==> v == w.(mode := Normal, bag := rest))
      && (t.ConfirmedMsg? ==> v == w.(bag := rest + multiset{Saving(t.phrase)}))
      && (t.Checking? || t.Saving? ==> v == w)
      && (t.Answer? ==> v == if w.mode == Seed then Handle(w.(bag := rest), Revealed(t.answer)) else w.(bag := rest))
  {
    hide Handle;
    assert w.bag - multiset{t} + multiset{t} == w.bag;
  }

  lemma Saves(w: World, es: seq<Event>, phrase: string) returns (v: World, es': seq<Event>)
    requires w == Run(Start(), es) && !w.panicked && ConfirmedMsg(phrase) in w.bag
    ensures v == Run(Start(), es') && !v.panicked && v.mode.Normal? && Saved(phrase) in v.log
  {
    var (e0, e1, e2) := (Deliver(ConfirmedMsg(phrase)), Save(Saving(phrase), true), Deliver(Created(true)));
    ArrivalMeaning(w, ConfirmedMsg(phrase));
    var w1 := Step(w, e0);
    hide Handle, Deliver1;
    var w2 := Finishes(w1, phrase);
    hide Step, Run;
    ArrivalMeaning(w2, Created(true));
    v := Step(w2, e2);
    es' := es + [e0] + [e1] + [e2];
    OneMore(Start(), es, e0);
    OneMore(Start(), es + [e0], e1);
    OneMore(Start(), es + [e0] + [e1], e2);
  }

  lemma Finishes(w: World, phrase: string) returns (v: World)
    requires !w.panicked && Saving(phrase) in w.bag
    ensures v == Step(w, Save(Saving(phrase), true))
    ensures !v.panicked && v.log == w.log + [Saved(phrase)] && Created(true) in v.bag
  {
    v := Step(w, Save(Saving(phrase), true));
  }

  /** For any phrase whose picked words can be typed, some run passes its quiz and saves it. */
  lemma QuizLeadsToSave(phrase: string, a: nat, b: nat)
    requires Drawn(phrase, a, b)
    requires Typable(Fields(phrase)[Picks(a, b).0]) && Typable(Fields(phrase)[Picks(a, b).1])
    ensures exists events ::
      var w := Run(Start(), events);
      !w.panicked && w.mode.Normal? && Saved(phrase) in w.log
  {
    var w0 := Step(Start(), AskCreate);
    var w1 := OpenedThen(w0, phrase, a, b);
    var w2 := AsksAgain(w1);
    assert Run(Start(), []) == Start();
    hide Fields, Typable, Step, Run;
    var es := [] + [AskCreate] + [OpenBackup(phrase, a, b)] + [Key(Enter)];
    OneMore(Start(), [], AskCreate);
    OneMore(Start(), [] + [AskCreate], OpenBackup(phrase, a, b));
    OneMore(Start(), [] + [AskCreate] + [OpenBackup(phrase, a, b)], Key(Enter));
    var w3, es3 := WordTyped(w2, es);
    var w4, es4 := WordTyped(w3, es3);
    var w5, es5 := Saves(w4, es4, phrase);
  }

  /** And a deletion begun before can take an open backup off the screen, its phrase unsaved. */
  lemma DeletionLeavesBackup(phrase: string, a: nat, b: nat)
    requires Drawn(phrase, a, b)
    ensures exists events ::
      var w := Run(Start(), events);
      && !w.panicked && w.mode.Seed? && w.seed == NewBackup(phrase, Picks(a, b)) && Deleting in w.bag
      && Step(w, Deliver(Deleting)) == w.(mode := Normal, bag := w.bag - multiset{Deleting})
  {
    var es, w1 := DeletionBegun();
    var w := OpenedThen(w1, phrase, a, b);
    ArrivalMeaning(w, Deleting);
    hide *;
    OneMore(Start(), es, OpenBackup(phrase, a, b));
  }

  lemma DeletionBegun() returns (es: seq<Event>, w: World)
    ensures w == Run(Start(), es) && !w.panicked && w.mode.ConfirmCreate? && w.bag == multiset{Deleting}
  {
    var w0 := Start();
    w := Step(Step(Step(Step(w0, AskDelete), Delete), Decline), AskCreate);
    assert w == w0.(mode := ConfirmCreate, bag := multiset{Deleting});
    assert Run(w0, []) == w0;
    hide Step, Run, Start;
    es := [] + [AskDelete] + [Delete] + [Decline] + [AskCreate];
    OneMore(w0, [], AskDelete);
    OneMore(w0, [] + [AskDelete], Delete);
    OneMore(w0, [] + [AskDelete] + [Delete], Decline);
    OneMore(w0, [] + [AskDelete] + [Delete] + [Decline], AskCreate);
  }
}
