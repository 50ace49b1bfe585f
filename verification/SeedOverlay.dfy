/** The recovery phrase overlay: revealing a stored phrase, and backing up a new one with a quiz on two of its words. */
module SeedOverlay {
  import opened Text

  const CHAR_LIMIT := 128

  datatype Stage = Password | Show | Quiz | Done

  /** `failed` is whether an error is shown. */
  datatype Overlay = Overlay(
    backup: bool, step: Stage, phrase: string, words: seq<string>, picks: (nat, nat), asked: nat,
    input: string, failed: bool, busy: bool)

  datatype Msg = Esc | Enter | Edit(text: string) | Revealed(answer: Result<string, string>)

  datatype Out = Close | Check(password: string) | Confirmed(phrase: string)

  function NewReveal(): Overlay {
    Overlay(false, Password, "", [], (0, 0), 0, "", false, false)
  }

  function NewBackup(phrase: string, picks: (nat, nat)): Overlay {
    Overlay(true, Show, phrase, Fields(phrase), picks, 0, "", false, false)
  }

  // ---------------------------------------------------------------- two random positions

  /** The two positions two raw draws stand for. */
  function Picks(a: nat, b: nat): (nat, nat) {
    var c := if b >= a then b + 1 else b;
    if c < a then (c, a) else (a, c)
  }

  /** The draws are below `n` and below `n - 1`; None is a failing source of randomness. */
  method RandomPicks(n: nat, first: Option<nat>, second: Option<nat>) returns (r: Option<(nat, nat)>)
    requires n >= 2 && (first.Some? ==> first.value < n) && (second.Some? ==> second.value < n - 1)
    ensures r == if first.None? || second.None? then None else Some(Picks(first.value, second.value))
    ensures r.Some? ==> r.value.0 < r.value.1 < n
  {
    if first.None? {
      return None;
    }
    var a := first.value;
    if second.None? {
      return None;
    }
    var b := second.value;
    if b >= a {
      b := b + 1;
    }
    if b < a {
      a, b := b, a;
    }
    r := Some((a, b));
  }

  /** Of the n(n - 1) pairs of draws exactly two hit any two positions. */
  lemma PicksAreUniform(n: nat, i: nat, j: nat)
    requires i < j < n
    ensures (set a, b | 0 <= a < n && 0 <= b < n - 1 && Picks(a, b) == (i, j) :: (a, b)) == {(i, j - 1), (j, i)}
    ensures |{(i, j - 1), (j, i)}| == 2
  {
    forall a, b | 0 <= a < n && 0 <= b < n - 1
      ensures Picks(a, b) == (i, j) <==> (a, b) in {(i, j - 1), (j, i)}
    {}
    assert {(i, j - 1), (j, i)} - {(i, j - 1)} == {(j, i)};
  }

  // ---------------------------------------------------------------- the overlay

  /** Which word is asked for; beyond the second the index is out of range. */
  function Asked(m: Overlay): Option<nat> {
    if m.asked == 0 then Some(m.picks.0) else if m.asked == 1 then Some(m.picks.1) else None
  }

  /** Looking up the word asked for goes out of range. */
  predicate Panics(m: Overlay, msg: Msg) {
    msg.Enter? && m.step.Quiz? && (Asked(m).None? || Asked(m).value >= |m.words|)
  }

  function Answered(m: Overlay): string {
    Lower(TrimSpace(m.input))
  }

  function WordChecked(m: Overlay): (Overlay, Option<Out>)
    requires m.step.Quiz? && !Panics(m, Enter)
  {
    if Answered(m) != m.words[Asked(m).value] then (m.(input := "", failed := true), None)
    else if m.asked == 0 then (m.(input := "", failed := false, asked := 1), None)
    else (m.(input := "", failed := false, asked := 2, step := Done), Some(Confirmed(m.phrase)))
  }

  function Entered(m: Overlay): (Overlay, Option<Out>)
    requires !Panics(m, Enter)
  {
    match m.step
    case Password =>
      if m.busy || m.input == "" then (m, None)
      else (m.(busy := true, failed := false, input := ""), Some(Check(m.input)))
    case Show => if m.backup then (m.(step := Quiz), None) else (m, Some(Close))
    case Quiz => WordChecked(m)
    case Done => (m, None)
  }

  function Updated(m: Overlay, msg: Msg): (Overlay, Option<Out>)
    requires !Panics(m, msg)
  {
    match msg
    case Revealed(Err(_)) => (m.(busy := false, failed := true), None)
    case Revealed(Ok(p)) => (m.(busy := false, phrase := p, words := Fields(p), step := Show), None)
    case Esc => (m, if m.step.Done? then None else Some(Close))
    case Enter => if m.step.Done? then (m, None) else Entered(m)
    case Edit(text) =>
      (if m.step.Show? || m.step.Done? || |text| > CHAR_LIMIT then m else m.(input := text), None)
  }

  /** The overlay's answers to everything but enter; once the quiz is passed no key does anything. */
  lemma OverlayAnswers(m: Overlay, msg: Msg)
    requires !Panics(m, msg)
    ensures var (n, out) := Updated(m, msg);
      match msg
      case Revealed(Ok(p)) => n == m.(busy := false, phrase := p, words := Fields(p), step := Show) && out == None
      case Revealed(Err(_)) => n == m.(busy := false, failed := true) && out == None
      case Esc => n == m && out == if m.step == Done then None else Some(Close)
      case Edit(text) =>
        && out == None
        && n == if (m.step == Password || m.step == Quiz) && |text| <= 128 then m.(input := text) else m
      case Enter => m.step == Done ==> n == m && out == None
  {}

  /** And to enter, step by step. */
  lemma EnterMeaning(m: Overlay)
    requires !Panics(m, Enter)
    ensures var (n, out) := Updated(m, Enter);
      && (m.step == Password ==>
           if m.busy || m.input == "" then n == m && out == None
           else n == m.(busy := true, failed := false, input := "") && out == Some(Check(m.input)))
      && (m.step == Show ==>
           if m.backup then n == m.(step := Quiz) && out == None else n == m && out == Some(Close))
      && (m.step == Quiz ==>
           var right := Lower(TrimSpace(m.input)) == m.words[if m.asked == 0 then m.picks.0 else m.picks.1];
           && (!right ==> n == m.(input := "", failed := true) && out == None)
           && (right && m.asked == 0 ==> n == m.(input := "", failed := false, asked := 1) && out == None)
           && (right && m.asked == 1 ==>
                n == m.(input := "", failed := false, asked := 2, step := Done) && out == Some(Confirmed(m.phrase))))
  {
    hide TrimSpace, Lower;
  }

  class Model {
    var backup: bool
    var step: Stage
    var phrase: string
    var words: seq<string>
    var picks: (nat, nat)
    var asked: nat
    var input: string
    var failed: bool
    var busy: bool

    function State(): Overlay
      reads this
    {
      Overlay(backup, step, phrase, words, picks, asked, input, failed, busy)
    }

    constructor Reveal()
      ensures State() == NewReveal()
    {
      backup, step, phrase, words, picks, asked := false, Password, "", [], (0, 0), 0;
      input, failed, busy := "", false, false;
    }

    constructor Backup(phrase: string, picks: (nat, nat))
      ensures State() == NewBackup(phrase, picks)
    {
      backup, step, this.picks, asked := true, Show, picks, 0;
      input, failed, busy := "", false, false;
      this.phrase, words := phrase, Fields(phrase);
    }

    method Update(msg: Msg) returns (out: Option<Out>)
      requires !Panics(State(), msg)
      modifies this
      ensures (State(), out) == Updated(old(State()), msg)
    {
      out := None;
      match msg {
        case Revealed(answer) => OnRevealed(answer);
        case Esc =>
          if step != Done {
            out := Some(Close);
          }
        case Enter =>
          if step != Done {
            out := OnEnter();
          }
        case Edit(text) =>
          if step != Done && step != Show && |text| <= CHAR_LIMIT {
            input := text;
          }
      }
    }

    method OnEnter() returns (out: Option<Out>)
      requires step != Done && !Panics(State(), Enter)
      modifies this
      ensures (State(), out) == Entered(old(State()))
    {
      if step == Password {
        if busy || input == "" {
          return None;
        }
        busy, failed := true, false;
        out := Some(Check(input));
        input := "";
      } else if step == Show {
        if !backup {
          return Some(Close);
        }
        step, out := Quiz, None;
      } else {
        out := CheckQuizWord();
      }
    }

    method OnRevealed(answer: Result<string, string>)
      modifies this
      ensures State() == Updated(old(State()), Revealed(answer)).0
    {
      busy := false;
      if answer.Err? {
        failed := true;
        return;
      }
      phrase, words := answer.value, Fields(answer.value);
      step := Show;
    }

    method CheckQuizWord() returns (out: Option<Out>)
      requires step == Quiz && !Panics(State(), Enter)
      modifies this
      ensures (State(), out) == WordChecked(old(State()))
    {
      var want := words[if asked == 0 then picks.0 else picks.1];
      var got := Lower(TrimSpace(input));
      input := "";
      if got != want {
        failed := true;
        return None;
      }
      failed := false;
      asked := asked + 1;
      if asked < 2 {
        return None;
      }
      step := Done;
      out := Some(Confirmed(phrase));
    }
  }

  // ---------------------------------------------------------------- one overlay from its opening

  /** Everything an overlay has emitted, and the answers given in its quiz. */
  datatype Course = Course(overlay: Overlay, out: seq<Out>, answers: seq<string>, panicked: bool)

  /** What handling a message adds to the answers. */
  function Answering(m: Overlay, msg: Msg): seq<string> {
    if msg.Enter? && m.step.Quiz? then [Answered(m)] else []
  }

  function Opened(m: Overlay): Course {
    Course(m, [], [], false)
  }

  function Next(c: Course, msg: Msg): Course {
    if Panics(c.overlay, msg) then c.(panicked := true)
    else
      var (m, out) := Updated(c.overlay, msg);
      Course(m, c.out + (if out.Some? then [out.value] else []),
        c.answers + Answering(c.overlay, msg), c.panicked)
  }

  function Play(m: Overlay, msgs: seq<Msg>): Course {
    if msgs == [] then Opened(m) else Next(Play(m, msgs[..|msgs| - 1]), msgs[|msgs| - 1])
  }

  /** A course is its messages, one after the other; a panic is noted. */
  lemma PlayIsStepwise(m: Overlay, msgs: seq<Msg>, msg: Msg)
    ensures Play(m, []) == Opened(m) && Play(m, msgs + [msg]) == Next(Play(m, msgs), msg)
    ensures Panics(Play(m, msgs).overlay, msg) ==> Play(m, msgs + [msg]).panicked
  {
    assert (msgs + [msg])[..|msgs|] == msgs;
    hide Updated, Panics;
  }

  /** How many of two words the answers have got right in order, taking each as soon as it comes. */
  function Progress(answers: seq<string>, first: string, second: string): nat {
    if answers == [] then 0
    else
      var (n, last) := (Progress(answers[..|answers| - 1], first, second), answers[|answers| - 1]);
      if n == 0 && last == first then 1 else if n == 1 && last == second then 2 else n
  }

  predicate InOrder(answers: seq<string>, first: string, second: string) {
    exists p, q :: 0 <= p < q < |answers| && answers[p] == first && answers[q] == second
  }

  lemma {:induction false} ProgressIsOrder(answers: seq<string>, first: string, second: string)
    ensures Progress(answers, first, second) <= 2
    ensures Progress(answers, first, second) >= 1 <==> first in answers
    ensures Progress(answers, first, second) == 2 <==> InOrder(answers, first, second)
  {
    if answers != [] {
      var n := |answers| - 1;
      var (before, last) := (answers[..n], answers[n]);
      ProgressIsOrder(before, first, second);
      if first in before {
        var p :| 0 <= p < n && before[p] == first;
        assert answers[p] == first;
        assert last == second ==> InOrder(answers, first, second);
      }
      if InOrder(before, first, second) {
        var p, q :| 0 <= p < q < n && before[p] == first && before[q] == second;
        assert answers[p] == first && answers[q] == second;
      }
      if InOrder(answers, first, second) {
        var p, q :| 0 <= p < q <= n && answers[p] == first && answers[q] == second;
        assert before[p] == first;
        assert q < n ==> before[q] == second;
      }
      assert first in answers <==> first in before || last == first;
    }
  }

  predicate RevealHolds(c: Course) {
    && !c.overlay.backup && !c.overlay.step.Quiz? && !c.overlay.step.Done? && c.answers == [] && !c.panicked
    && forall o :: o in c.out ==> !o.Confirmed?
  }

  lemma RevealStep(c: Course, msg: Msg)
    requires RevealHolds(c)
    ensures RevealHolds(Next(c, msg))
  {
    hide Fields, TrimSpace, Lower;
  }

  /** A reveal overlay, whatever reaches it: no quiz, no confirmation, and no index out of range. */
  lemma {:induction false} RevealNeverQuizzes(msgs: seq<Msg>)
    ensures var c := Play(NewReveal(), msgs);
      !c.overlay.backup && !c.overlay.step.Quiz? && !c.overlay.step.Done? && c.answers == [] && !c.panicked
      && forall o :: o in c.out ==> !o.Confirmed?
  {
    if msgs != [] {
      RevealNeverQuizzes(msgs[..|msgs| - 1]);
      hide Next;
      RevealStep(Play(NewReveal(), msgs[..|msgs| - 1]), msgs[|msgs| - 1]);
    }
  }

  /** Nothing is asked of the parent but to close, until the one confirmation, which is the last thing. */
  ghost predicate OutHolds(out: seq<Out>, phrase: string, confirmed: bool) {
    && (forall i :: 0 <= i < |out| ==> !out[i].Check?)
    && (forall i :: 0 <= i < |out| && out[i].Confirmed? ==> out[i].phrase == phrase && i == |out| - 1 && confirmed)
    && (confirmed ==> Confirmed(phrase) in out)
  }

  /** A backup overlay of this phrase and these positions, as far along as its answers go. */
  predicate QuizHolds(m: Overlay, answers: seq<string>, phrase: string, picks: (nat, nat)) {
    && m.backup && m.phrase == phrase && m.words == Fields(phrase) && m.picks == picks
    && picks.0 < picks.1 < |m.words|
    && m.asked == Progress(answers, m.words[picks.0], m.words[picks.1])
    && (m.step.Show? ==> m.asked == 0) && !m.step.Password? && (m.step.Quiz? ==> m.asked < 2)
    && (m.step.Done? <==> m.asked == 2)
  }

  ghost predicate BackupHolds(c: Course, phrase: string, picks: (nat, nat)) {
    QuizHolds(c.overlay, c.answers, phrase, picks) && !c.panicked && OutHolds(c.out, phrase, c.overlay.step.Done?)
  }

  lemma OutStep(out: seq<Out>, phrase: string, o: Out)
    requires OutHolds(out, phrase, false)
    requires o == Close || o == Confirmed(phrase)
    ensures OutHolds(out + [o], phrase, o.Confirmed?)
  {
    assert (out + [o])[|out|] == o;
  }

  lemma ProgressStep(answers: seq<string>, answer: string, first: string, second: string)
    ensures var n := Progress(answers, first, second);
      Progress(answers + [answer], first, second) ==
        if n == 0 && answer == first then 1 else if n == 1 && answer == second then 2 else n
  {
    assert (answers + [answer])[..|answers|] == answers;
  }

  lemma QuizStep(m: Overlay, answers: seq<string>, phrase: string, picks: (nat, nat), msg: Msg)
    requires QuizHolds(m, answers, phrase, picks) && !msg.Revealed?
    ensures !Panics(m, msg)
    ensures var (n, out) := Updated(m, msg);
      && QuizHolds(n, answers + Answering(m, msg), phrase, picks)
      && out in {None, Some(Close), Some(Confirmed(phrase))}
      && (out == Some(Confirmed(phrase)) <==> n.step.Done? && !m.step.Done?)
      && (m.step.Done? ==> out == None)
  {
    hide Fields, TrimSpace, Lower, Progress;
    if msg.Enter? && m.step.Quiz? {
      ProgressStep(answers, Answered(m), m.words[picks.0], m.words[picks.1]);
    } else {
      assert answers + [] == answers;
    }
  }

  lemma BackupStep(c: Course, phrase: string, picks: (nat, nat), msg: Msg)
    requires BackupHolds(c, phrase, picks) && !msg.Revealed?
    ensures BackupHolds(Next(c, msg), phrase, picks)
  {
    QuizStep(c.overlay, c.answers, phrase, picks, msg);
    hide OutHolds, QuizHolds, Panics, Updated;
    var out := Updated(c.overlay, msg).1;
    if out.Some? {
      OutStep(c.out, phrase, out.value);
    } else {
      assert c.out + [] == c.out;
    }
  }

  lemma {:induction false} BackupRun(phrase: string, picks: (nat, nat), msgs: seq<Msg>)
    requires picks.0 < picks.1 < |Fields(phrase)| && forall m :: m in msgs ==> !m.Revealed?
    ensures BackupHolds(Play(NewBackup(phrase, picks), msgs), phrase, picks)
  {
    if msgs != [] {
      BackupRun(phrase, picks, msgs[..|msgs| - 1]);
      hide BackupHolds, Next;
      BackupStep(Play(NewBackup(phrase, picks), msgs[..|msgs| - 1]), phrase, picks, msgs[|msgs| - 1]);
    }
  }

  /**
   * A backup overlay that only receives what its own commands send, which is nothing but keys: it confirms its own
   * phrase, once, exactly if both picked words were answered in order; no index it looks up is out of range.
   */
  lemma BackupConfirmsOnce(phrase: string, picks: (nat, nat), msgs: seq<Msg>)
    requires picks.0 < picks.1 < |Fields(phrase)| && forall m :: m in msgs ==> !m.Revealed?
    ensures var c := Play(NewBackup(phrase, picks), msgs);
      var words := Fields(phrase);
      && !c.panicked && (forall o :: o in c.out ==> !o.Check?)
      && (Confirmed(phrase) in c.out <==> InOrder(c.answers, words[picks.0], words[picks.1]))
      && (forall i :: 0 <= i < |c.out| && c.out[i].Confirmed? ==> c.out[i] == Confirmed(phrase))
      && (forall i, j :: 0 <= i < |c.out| && 0 <= j < |c.out| && c.out[i].Confirmed? && c.out[j].Confirmed? ==> i == j)
  {
    BackupRun(phrase, picks, msgs);
    var c := Play(NewBackup(phrase, picks), msgs);
    ProgressIsOrder(c.answers, Fields(phrase)[picks.0], Fields(phrase)[picks.1]);
    hide Fields, Play, InOrder, Progress;
  }
}
