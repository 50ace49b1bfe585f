/**
 * Every run of one process at a time over one store: typing, submitting, derivations that take their steps or fail
 * at any of them, and the process being killed and started again at any moment.
 */
module LoginRuns {
  import opened Text
  import opened Envelope
  import opened Login

  /** What is under way outside the screen. Setting a password goes through three tasks before it replies. */
  datatype Task =
    | Derive(password: string)
    | PutSalt(password: string, salt: Bytes, envelope: string)
    | PutSentinel(password: string, salt: Bytes, envelope: string)
    | Verify(password: string)
    | Reply(msg: Msg)

  /** What the user sees and does. */
  datatype Entry = Started | Entered(password: string) | Escaped | Unlocked(key: Bytes)

  datatype World = World(config: Config, screen: Screen, bag: multiset<Task>, log: seq<Entry>)

  datatype Event =
    | Press(msg: Msg)
    | Work(task: Task, ok: bool, salt: Bytes, iv: Bytes)  // one step of a task, with fresh randomness
    | Restart

  function Start(config: Config): World {
    World(config, NewScreen(config), multiset{}, [Started])
  }

  function Begun(cmd: Option<Cmd>): multiset<Task> {
    match cmd
    case Some(InitCmd(pw)) => multiset{Derive(pw)}
    case Some(VerifyCmd(pw)) => multiset{Verify(pw)}
    case _ => multiset{}
  }

  function Noted(s: Screen, msg: Msg): seq<Entry> {
    match msg
    case Enter => if s.busy then [] else [Entered(s.input)]
    case Esc => if s.busy then [] else [Escaped]
    case Success(key) => [Unlocked(key)]
    case _ => []
  }

  function Handle(c: Library, w: World, msg: Msg): World {
    var (s, cmd) := Updated(c.kind, w.screen, msg);
    w.(screen := s, bag := w.bag + Begun(cmd), log := w.log + Noted(w.screen, msg))
  }

  /** What a step of a task leaves in the store, and what comes next. */
  function Worked(c: Library, config: Config, task: Task, ok: bool, salt: Bytes, iv: Bytes): (Config, Task)
    requires !task.Reply?
  {
    if !ok then (config, Reply(Failure)) else
    match task
    case Derive(pw) =>
      var envelope := Encrypt(c.aead, c.derive(pw, salt), iv, SENTINEL);
      if |c.derive(pw, salt)| != KEY_LENGTH || envelope.None? then (config, Reply(Failure))
      else (config, PutSalt(pw, salt, envelope.value))
    case PutSalt(pw, s, envelope) => (config[SALT_KEY := Encode(s)], PutSentinel(pw, s, envelope))
    case PutSentinel(pw, s, envelope) => (config[SENTINEL_KEY := envelope], Reply(Success(c.derive(pw, s))))
    case Verify(pw) =>
      (config, Reply(match Unlock(c, config, pw) case Ok(key) => Success(key) case Err(_) => Failure))
  }

  /** One step. An event that is not possible changes nothing. */
  function Step(c: Library, w: World, e: Event): World {
    match e
    case Press(msg) => if msg.Success? || msg.Failure? then w else Handle(c, w, msg)
    case Work(t, ok, salt, iv) =>
      if t !in w.bag || |salt| != SALT_LENGTH || |iv| != IV_LENGTH then w
      else if t.Reply? then Handle(c, w.(bag := w.bag - multiset{t}), t.msg)
      else
        var (config, next) := Worked(c, w.config, t, ok, salt, iv);
        w.(config := config, bag := w.bag - multiset{t} + multiset{next})
    case Restart => Start(w.config).(log := w.log + [Started])
  }

  function Run(c: Library, w: World, events: seq<Event>): World {
    if events == [] then w else Step(c, Run(c, w, events[..|events| - 1]), events[|events| - 1])
  }

  // ---------------------------------------------------------------- what every run keeps

  /** An acceptable password was entered twice in a row. */
  ghost predicate Confirmed(c: Library, log: seq<Entry>, password: string) {
    && Acceptable(c.kind, password)
    && exists i :: 0 < i < |log| && log[i - 1] == log[i] == Entered(password)
  }

  /** The store opens with such a password. */
  ghost predicate OpensWithConfirmed(c: Library, config: Config, log: seq<Entry>) {
    exists pw :: Confirmed(c, log, pw) && Unlock(c, config, pw).Ok?
  }

  /** The sentinel a task is about to store opens with the key it will report. */
  ghost predicate Sealed(c: Library, password: string, salt: Bytes, envelope: string) {
    Decrypt(c.aead, c.derive(password, salt), envelope) == Ok(SENTINEL)
  }

  /** The user was let in with the key of a password that was entered, and it still opens the store. */
  ghost predicate KeyOfEntered(c: Library, config: Config, log: seq<Entry>, key: Bytes) {
    exists pw :: Entered(pw) in log && Unlock(c, config, pw) == Ok(key)
  }

  /** No password is stored yet, and the one being set is confirmed. */
  ghost predicate Setting(c: Library, w: World, password: string) {
    w.screen.isFirstAccess && SENTINEL_KEY !in w.config && Confirmed(c, w.log, password)
  }

  ghost predicate TaskHolds(c: Library, w: World, t: Task) {
    match t
    case Derive(pw) => Setting(c, w, pw)
    case PutSalt(pw, salt, envelope) => Setting(c, w, pw) && Sealed(c, pw, salt, envelope)
    case PutSentinel(pw, salt, envelope) =>
      Setting(c, w, pw) && Sealed(c, pw, salt, envelope) && SALT_KEY in w.config && w.config[SALT_KEY] == Encode(salt)
    case Verify(pw) => !w.screen.isFirstAccess && Entered(pw) in w.log
    case Reply(Success(key)) => KeyOfEntered(c, w.config, w.log, key)
    case Reply(Failure) => w.screen.isFirstAccess ==> SENTINEL_KEY !in w.config
    case Reply(_) => false
  }

  ghost predicate ScreenHolds(c: Library, w: World) {
    && (w.screen.awaitingConfirm && (w.screen.busy ==> w.bag != multiset{}) ==>
         w.screen.isFirstAccess && Acceptable(c.kind, w.screen.firstEntry)
         && w.log != [] && w.log[|w.log| - 1] == Entered(w.screen.firstEntry))
    && (w.screen.isFirstAccess && !w.screen.busy ==> SENTINEL_KEY !in w.config)
  }

  ghost predicate StoreHolds(c: Library, config: Config, log: seq<Entry>) {
    && (SENTINEL_KEY in config ==> OpensWithConfirmed(c, config, log))
    && (forall key :: Unlocked(key) in log ==> KeyOfEntered(c, config, log, key))
  }

  /** With what is under way named: the bag holds it and nothing else, and the screen waits for it. */
  ghost predicate InvWith(c: Library, w: World, task: Option<Task>) {
    && StoreHolds(c, w.config, w.log)
    && ScreenHolds(c, w)
    && (match task
        case None => w.bag == multiset{}
        case Some(t) => w.bag == multiset{t} && w.screen.busy && TaskHolds(c, w, t))
  }

  lemma ConfirmedStays(c: Library, log: seq<Entry>, more: seq<Entry>, pw: string)
    requires Confirmed(c, log, pw)
    ensures Confirmed(c, log + more, pw)
  {
    hide Acceptable;
    var i :| 0 < i < |log| && log[i - 1] == log[i] == Entered(pw);
    assert (log + more)[i - 1] == (log + more)[i] == Entered(pw);
  }

  lemma StoreStays(c: Library, config: Config, log: seq<Entry>, more: seq<Entry>)
    requires StoreHolds(c, config, log)
    requires forall key :: Unlocked(key) in more ==> KeyOfEntered(c, config, log, key)
    ensures StoreHolds(c, config, log + more)
  {
    hide Unlock, Confirmed;
    if SENTINEL_KEY in config {
      var pw :| Confirmed(c, log, pw) && Unlock(c, config, pw).Ok?;
      ConfirmedStays(c, log, more, pw);
    }
    forall key | Unlocked(key) in log + more
      ensures KeyOfEntered(c, config, log + more, key)
    {
      assert KeyOfEntered(c, config, log, key);
      var pw :| Entered(pw) in log && Unlock(c, config, pw) == Ok(key);
      assert Entered(pw) in log + more;
    }
  }

  /** Without a sentinel nothing opens, so nobody has been let in. */
  lemma NobodyLetIn(c: Library, config: Config, log: seq<Entry>)
    requires StoreHolds(c, config, log) && SENTINEL_KEY !in config
    ensures forall key :: Unlocked(key) !in log
  {
    assert forall pw :: Unlock(c, config, pw).Err?;
    assert forall key :: !KeyOfEntered(c, config, log, key);
  }

  lemma SaltChanges(c: Library, config: Config, log: seq<Entry>, salt: string)
    requires StoreHolds(c, config, log) && SENTINEL_KEY !in config
    ensures StoreHolds(c, config[SALT_KEY := salt], log)
  {
    NobodyLetIn(c, config, log);
  }

  // ---------------------------------------------------------------- the screen's own steps

  lemma PressHolds(c: Library, w: World, task: Option<Task>, msg: Msg) returns (task': Option<Task>)
    requires InvWith(c, w, task) && !msg.Success? && !msg.Failure?
    ensures InvWith(c, Handle(c, w, msg), task')
  {
    var v := Handle(c, w, msg);
    StoreStays(c, w.config, w.log, Noted(w.screen, msg));
    hide StoreHolds, Acceptable, Confirmed, Unlock;
    if w.screen.busy {
      assert w.log + [] == w.log && v == w;
      task' := task;
    } else if msg.Enter? {
      task' := EnterHolds(c, w);
    } else {
      task' := None;
    }
  }

  lemma EnterHolds(c: Library, w: World) returns (task': Option<Task>)
    requires InvWith(c, w, None) && !w.screen.busy && StoreHolds(c, w.config, w.log + [Entered(w.screen.input)])
    ensures InvWith(c, Handle(c, w, Enter), task')
  {
    var (v, pw) := (Handle(c, w, Enter), w.screen.input);
    assert v.log == w.log + [Entered(pw)];
    hide StoreHolds, Unlock;
    var cmd := Submitted(c.kind, w.screen).1;
    if cmd.None? {
      task' := None;
    } else if cmd.value.InitCmd? {
      task' := Some(Derive(pw));
      assert Confirmed(c, v.log, pw) by {
        assert v.log[|w.log| - 1] == v.log[|w.log|] == Entered(pw);
      }
    } else {
      task' := Some(Verify(pw));
      assert v.log[|w.log|] == Entered(pw);
    }
  }

  lemma ReplyHolds(c: Library, w: World, t: Task) returns (task': Option<Task>)
    requires InvWith(c, w, Some(t)) && t.Reply?
    ensures InvWith(c, Handle(c, w.(bag := w.bag - multiset{t}), t.msg), task')
  {
    StoreStays(c, w.config, w.log, Noted(w.screen, t.msg));
    hide StoreHolds, Acceptable, Confirmed, Unlock;
    assert w.bag - multiset{t} == multiset{};
    assert w.log + [] == w.log;
    task' := None;
  }

  // ---------------------------------------------------------------- the steps of a task

  lemma WorkHolds(c: Library, w: World, t: Task, ok: bool, salt: Bytes, iv: Bytes)
    requires Sound(c) && InvWith(c, w, Some(t)) && !t.Reply? && |iv| == IV_LENGTH
    ensures var (config, next) := Worked(c, w.config, t, ok, salt, iv);
      InvWith(c, w.(config := config, bag := multiset{next}), Some(next))
  {
    hide StoreHolds, Unlock, Confirmed, ScreenHolds, Encrypt, Decrypt, Encode;
    var (config, next) := Worked(c, w.config, t, ok, salt, iv);
    BusyScreenHolds(c, w, config, next);
    if !ok {
      return;
    }
    match t {
      case Derive(pw) =>
        if next.PutSalt? {
          DecryptUndoesEncrypt(c.aead, c.derive(pw, salt), iv, SENTINEL);
        }
        hide Sound;
      case PutSalt(pw, s, envelope) =>
        SaltChanges(c, w.config, w.log, Encode(s));
        hide Sound, Sealed;
      case PutSentinel(pw, s, envelope) =>
        PutSentinelHolds(c, w, pw, s, envelope);
        hide Sound, Sealed;
      case Verify(pw) =>
        hide Sound;
    }
  }

  /** What a busy screen remembers does not depend on the store, nor on which task it waits for. */
  lemma BusyScreenHolds(c: Library, w: World, config: Config, next: Task)
    requires ScreenHolds(c, w) && w.screen.busy && w.bag != multiset{}
    ensures ScreenHolds(c, w.(config := config, bag := multiset{next}))
  {
    hide Acceptable;
  }

  lemma PutSentinelHolds(c: Library, w: World, pw: string, salt: Bytes, envelope: string)
    requires Sound(c) && StoreHolds(c, w.config, w.log) && Setting(c, w, pw)
    requires Sealed(c, pw, salt, envelope) && SALT_KEY in w.config && w.config[SALT_KEY] == Encode(salt)
    ensures var config := w.config[SENTINEL_KEY := envelope];
      StoreHolds(c, config, w.log) && KeyOfEntered(c, config, w.log, c.derive(pw, salt))
  {
    var config := w.config[SENTINEL_KEY := envelope];
    DecodeUndoesEncode(salt);
    assert Unlock(c, config, pw) == Ok(c.derive(pw, salt));
    assert Entered(pw) in w.log;
    NobodyLetIn(c, w.config, w.log);
  }

  // ---------------------------------------------------------------- runs

  lemma StepHolds(c: Library, w: World, e: Event, task: Option<Task>) returns (task': Option<Task>)
    requires Sound(c) && InvWith(c, w, task)
    ensures InvWith(c, Step(c, w, e), task')
  {
    task' := task;
    match e {
      case Press(msg) =>
        if !msg.Success? && !msg.Failure? {
          task' := PressHolds(c, w, task, msg);
        }
      case Work(t, ok, salt, iv) =>
        if t in w.bag && |salt| == SALT_LENGTH && |iv| == IV_LENGTH {
          assert task == Some(t);
          if t.Reply? {
            task' := ReplyHolds(c, w, t);
          } else {
            WorkHolds(c, w, t, ok, salt, iv);
            task' := Some(Worked(c, w.config, t, ok, salt, iv).1);
            assert w.bag - multiset{t} + multiset{task'.value} == multiset{task'.value};
          }
        }
      case Restart =>
        StoreStays(c, w.config, w.log, [Started]);
        task' := None;
    }
  }

  lemma {:induction false} RunHolds(c: Library, config: Config, events: seq<Event>) returns (task: Option<Task>)
    requires Sound(c) && SENTINEL_KEY !in config
    ensures InvWith(c, Run(c, Start(config), events), task)
  {
    if events == [] {
      task := None;
    } else {
      task := RunHolds(c, config, events[..|events| - 1]);
      hide InvWith, Step;
      task := StepHolds(c, Run(c, Start(config), events[..|events| - 1]), events[|events| - 1], task);
    }
  }

  /**
   * Over every run from a store without a password: once the store is initialised, it opens with an acceptable
   * password that was entered twice in a row; whoever was let in got the key of a password they entered, which still
   * opens it; and never is more than one derivation under way.
   */
  lemma InitialisedOpens(c: Library, config: Config, events: seq<Event>)
    requires Sound(c) && SENTINEL_KEY !in config
    ensures var w := Run(c, Start(config), events);
      && (Initialised(w.config) ==> OpensWithConfirmed(c, w.config, w.log))
      && (forall key :: Unlocked(key) in w.log ==> KeyOfEntered(c, w.config, w.log, key))
      && |w.bag| <= 1
  {
    var task := RunHolds(c, config, events);
    var w := Run(c, Start(config), events);
    hide Run, Unlock, Confirmed, KeyOfEntered;
  }

  /** This key was derived from an entered password and the stored salt, and it opens the stored sentinel. */
  ghost predicate OpensSentinel(c: Library, config: Config, log: seq<Entry>, key: Bytes) {
    && "encryption_salt" in config && Decode(config["encryption_salt"]).Some? && "password_sentinel" in config
    && (exists pw :: Entered(pw) in log && key == c.derive(pw, Decode(config["encryption_salt"]).value))
    && SealsSentinel(c.aead, key, config["password_sentinel"])
  }

  lemma KeyOpensSentinel(c: Library, config: Config, log: seq<Entry>, key: Bytes)
    requires Sound(c) && KeyOfEntered(c, config, log, key)
    ensures OpensSentinel(c, config, log, key)
  {
    var pw :| Entered(pw) in log && Unlock(c, config, pw) == Ok(key);
    hide Unlock, Decode, SealsSentinel;
    UnlocksExactlyWhen(c, config, pw);
  }

  /** What every run from an initialised store keeps: it only ever verifies. */
  ghost predicate OnlyVerifies(c: Library, config: Config, w: World) {
    && w.config == config && !w.screen.isFirstAccess
    && (forall key :: Unlocked(key) in w.log ==> KeyOfEntered(c, config, w.log, key))
    && forall t :: t in w.bag ==>
         match t
         case Verify(pw) => Entered(pw) in w.log
         case Reply(Success(key)) => KeyOfEntered(c, config, w.log, key)
         case Reply(Failure) => true
         case _ => false
  }

  lemma KeyStays(c: Library, config: Config, log: seq<Entry>, more: seq<Entry>, key: Bytes)
    requires KeyOfEntered(c, config, log, key)
    ensures KeyOfEntered(c, config, log + more, key)
  {
    hide Unlock;
    var pw :| Entered(pw) in log && Unlock(c, config, pw) == Ok(key);
    assert Entered(pw) in log + more;
  }

  lemma HandleOnlyVerifies(c: Library, config: Config, w: World, msg: Msg)
    requires OnlyVerifies(c, config, w) && (msg.Success? ==> KeyOfEntered(c, config, w.log, msg.key))
    ensures OnlyVerifies(c, config, Handle(c, w, msg))
  {
    hide Acceptable, Unlock, KeyOfEntered;
    var (v, more) := (Handle(c, w, msg), Noted(w.screen, msg));
    forall key | Unlocked(key) in v.log || Reply(Success(key)) in w.bag
      ensures KeyOfEntered(c, config, v.log, key)
    {
      KeyStays(c, config, w.log, more, key);
    }
    assert forall pw :: Entered(pw) in w.log ==> Entered(pw) in v.log;
  }

  lemma StepOnlyVerifies(c: Library, config: Config, w: World, e: Event)
    requires OnlyVerifies(c, config, w) && Initialised(config)
    ensures OnlyVerifies(c, config, Step(c, w, e))
  {
    hide Acceptable, Handle, Unlock, KeyOfEntered;
    match e {
      case Press(msg) =>
        if !msg.Success? && !msg.Failure? {
          HandleOnlyVerifies(c, config, w, msg);
        }
      case Work(t, _, _, _) =>
        if t in w.bag && t.Reply? {
          HandleOnlyVerifies(c, config, w.(bag := w.bag - multiset{t}), t.msg);
        } else if t in w.bag {
          VerifiedKey(c, config, w.log, t.password);
        }
      case Restart =>
        forall key | Unlocked(key) in w.log
          ensures KeyOfEntered(c, config, w.log + [Started], key)
        {
          KeyStays(c, config, w.log, [Started], key);
        }
    }
  }

  lemma VerifiedKey(c: Library, config: Config, log: seq<Entry>, pw: string)
    requires Entered(pw) in log
    ensures Unlock(c, config, pw).Ok? ==> KeyOfEntered(c, config, log, Unlock(c, config, pw).value)
  {
    hide Unlock;
  }

  lemma {:induction false} RunOnlyVerifies(c: Library, config: Config, events: seq<Event>)
    requires Initialised(config)
    ensures OnlyVerifies(c, config, Run(c, Start(config), events))
  {
    if events != [] {
      RunOnlyVerifies(c, config, events[..|events| - 1]);
      hide OnlyVerifies, Step;
      StepOnlyVerifies(c, config, Run(c, Start(config), events[..|events| - 1]), events[|events| - 1]);
    }
  }

  /**
   * Over every run, from an initialised store or from one without a sentinel: whoever was let in has a key that was
   * derived from an entered password and the stored salt and opens the stored sentinel. An initialised store stays as
   * it is.
   */
  lemma LetInOpensSentinel(c: Library, config: Config, events: seq<Event>, key: Bytes)
    requires Sound(c) && (Initialised(config) || SENTINEL_KEY !in config)
    requires Unlocked(key) in Run(c, Start(config), events).log
    ensures var w := Run(c, Start(config), events);
      OpensSentinel(c, w.config, w.log, key) && (Initialised(config) ==> w.config == config)
  {
    var w := Run(c, Start(config), events);
    if Initialised(config) {
      RunOnlyVerifies(c, config, events);
    } else {
      InitialisedOpens(c, config, events);
    }
    hide Run, OpensSentinel, KeyOfEntered;
    KeyOpensSentinel(c, w.config, w.log, key);
  }

  /** Once the store is initialised nothing this process does changes it. */
  lemma {:induction false} InitialisedForGood(c: Library, config: Config, events: seq<Event>, more: seq<Event>)
    requires Sound(c) && SENTINEL_KEY !in config && Initialised(Run(c, Start(config), events).config)
    ensures Run(c, Start(config), events + more).config == Run(c, Start(config), events).config
  {
    if more == [] {
      assert events + more == events;
    } else {
      var n := |more| - 1;
      InitialisedForGood(c, config, events, more[..n]);
      assert (events + more)[..|events + more| - 1] == events + more[..n];
      var task := RunHolds(c, config, events + more[..n]);
      StepKeepsStore(c, Run(c, Start(config), events + more[..n]), more[n], task);
    }
  }

  lemma StepKeepsStore(c: Library, w: World, e: Event, task: Option<Task>)
    requires InvWith(c, w, task) && Initialised(w.config)
    ensures Step(c, w, e).config == w.config
  {
    hide Unlock, StoreHolds, Sealed, Confirmed, ScreenHolds, Updated;
    if e.Work? && e.task in w.bag {
      assert task == Some(e.task) && TaskHolds(c, w, e.task);
    }
  }

  // ---------------------------------------------------------------- runs that do happen

  lemma OneMore(c: Library, w: World, es: seq<Event>, e: Event)
    ensures Run(c, w, es + [e]) == Step(c, Run(c, w, es), e)
  {
    assert (es + [e])[..|es|] == es;
    hide Step;
  }

  /** A password is typed and entered while nothing is under way. */
  lemma Enters(c: Library, config: Config, w: World, es: seq<Event>, pw: string) returns (v: World, es': seq<Event>)
    requires w == Run(c, Start(config), es) && !w.screen.busy && |pw| <= 128
    ensures v == Run(c, Start(config), es') && v.config == w.config && v.log == w.log + [Entered(pw)]
    ensures var (s, cmd) := Submitted(c.kind, w.screen.(input := pw, failed := false));
      v.screen == s && v.bag == w.bag + Begun(cmd)
  {
    var (e0, e1) := (Press(Edit(pw)), Press(Msg.Enter));
    hide Acceptable, Submitted;
    var u := Step(c, w, e0);
    assert u == w.(screen := w.screen.(input := pw, failed := false)) by {
      assert w.bag + multiset{} == w.bag && w.log + [] == w.log;
    }
    v := Step(c, u, e1);
    es' := es + [e0] + [e1];
    hide Step, Run;
    OneMore(c, Start(config), es, e0);
    OneMore(c, Start(config), es + [e0], e1);
  }

  /** A task that is under way takes its step. */
  lemma Works(c: Library, config: Config, w: World, es: seq<Event>, t: Task, salt: Bytes, iv: Bytes)
    returns (v: World, es': seq<Event>)
    requires w == Run(c, Start(config), es) && w.bag == multiset{t} && !t.Reply? && |salt| == 32 && |iv| == 16
    ensures v == Run(c, Start(config), es') && v.screen == w.screen && v.log == w.log
    ensures var (config', next) := Worked(c, w.config, t, true, salt, iv);
      v.config == config' && v.bag == multiset{next}
  {
    var e := Work(t, true, salt, iv);
    hide Worked;
    v := Step(c, w, e);
    assert w.bag - multiset{t} == multiset{};
    es' := es + [e];
    hide Step, Run;
    OneMore(c, Start(config), es, e);
  }

  lemma Opens(c: Library, config: Config, w: World, es: seq<Event>, key: Bytes, salt: Bytes, iv: Bytes)
    returns (v: World, es': seq<Event>)
    requires w == Run(c, Start(config), es) && w.bag == multiset{Reply(Success(key))} && |salt| == 32 && |iv| == 16
    ensures v == Run(c, Start(config), es') && v.config == w.config && v.log == w.log + [Unlocked(key)]
  {
    var e := Work(Reply(Success(key)), true, salt, iv);
    v := Step(c, w, e);
    assert v.config == w.config && v.log == w.log + [Unlocked(key)];
    es' := es + [e];
    hide Step, Run;
    OneMore(c, Start(config), es, e);
  }

  /** On an empty store an acceptable password entered twice sets it up, with a salt of 32 bytes, and lets one in. */
  lemma SetsUp(c: Library, pw: string, salt: Bytes, iv: Bytes)
    requires Sound(c) && Acceptable(c.kind, pw) && |pw| <= 128 && |salt| == 32 && |iv| == 16
    ensures exists events ::
      var w := Run(c, Start(map[]), events);
      && Initialised(w.config) && w.config["encryption_salt"] == Encode(salt)
      && Unlocked(c.derive(pw, salt)) in w.log
  {
    var w2, es2 := EntersTwice(c, pw);
    DecryptUndoesEncrypt(c.aead, c.derive(pw, salt), iv, SENTINEL);
    var (config, key) := (Start(map[]).config, c.derive(pw, salt));
    var envelope := Encrypt(c.aead, key, iv, SENTINEL).value;
    hide Run, Acceptable, Encrypt, Decrypt, Encode, Lawful;
    var w3, es3 := Works(c, config, w2, es2, Derive(pw), salt, iv);
    var w4, es4 := Works(c, config, w3, es3, PutSalt(pw, salt, envelope), salt, iv);
    var w5, es5 := Works(c, config, w4, es4, PutSentinel(pw, salt, envelope), salt, iv);
    hide Worked, Sound;
    var w6, es6 := Opens(c, config, w5, es5, key, salt, iv);
  }

  lemma EntersTwice(c: Library, pw: string) returns (w: World, es: seq<Event>)
    requires Acceptable(c.kind, pw) && |pw| <= 128
    ensures w == Run(c, Start(map[]), es) && w.config == map[] && w.bag == multiset{Derive(pw)}
  {
    var w0 := Start(map[]);
    assert w0 == Run(c, w0, []) && w0.screen == Screen("", true, false, "", false, false) && w0.bag == multiset{};
    hide Run, Acceptable;
    var w1, es1 := Enters(c, map[], w0, [], pw);
    w, es := Enters(c, map[], w1, es1, pw);
  }

  /**
   * On an initialised store a password that unlocks it lets one in at the first attempt, and one that does not, tried
   * however often, never does.
   */
  lemma LogsIn(c: Library, config: Config, pw: string, salt: Bytes, iv: Bytes)
    requires Initialised(config) && |pw| <= 128 && |salt| == 32 && |iv| == 16
    ensures Unlock(c, config, pw).Ok? ==>
      exists events :: Run(c, Start(config), events).log == [Started, Entered(pw),
        Unlocked(Unlock(c, config, pw).value)]
    ensures Unlock(c, config, pw).Err? ==>
      forall events, key :: OnlyTries(Run(c, Start(config), events).log, pw) ==>
        Unlocked(key) !in Run(c, Start(config), events).log
  {
    var w0 := Start(config);
    assert w0 == Run(c, w0, []) && w0.screen == Screen("", false, false, "", false, false) && w0.bag == multiset{};
    hide Run, Unlock;
    if Unlock(c, config, pw).Ok? {
      var w1, es1 := Enters(c, config, w0, [], pw);
      assert w1.bag == multiset{Verify(pw)};
      var w2, es2 := Works(c, config, w1, es1, Verify(pw), salt, iv);
      var w3, es3 := Opens(c, config, w2, es2, Unlock(c, config, pw).value, salt, iv);
      assert w3.log == [Started, Entered(pw), Unlocked(Unlock(c, config, pw).value)];
    } else {
      forall events, key | OnlyTries(Run(c, Start(config), events).log, pw)
        ensures Unlocked(key) !in Run(c, Start(config), events).log
      {
        RunOnlyVerifies(c, config, events);
      }
    }
  }

  /** No other password was entered. */
  ghost predicate OnlyTries(log: seq<Entry>, pw: string) {
    forall other :: Entered(other) in log ==> other == pw
  }
}
