/**
 * Quoting a password for the shell, and a reader of shell words after the Shell Command Language of POSIX.1-2017,
 * sections 2.2.1 (escape character) and 2.2.2 (single-quotes).
 */
module ShellQuote {
  import opened Text

  /** `strings.ReplaceAll(s, "'", ...)`: leave the quotes, an escaped quote, enter them again. */
  function Escaped(s: string): string {
    if s == "" then "" else (if s[0] == '\'' then "'\\''" else [s[0]]) + Escaped(s[1..])
  }

  function Quoted(s: string): string {
    "'" + Escaped(s) + "'"
  }

  const COMMAND := "export"

  const ASSIGNMENT := "LAZYSWAP_PASSWORD="

  /** What `set password` prints. */
  function ExportLine(password: string): string {
    COMMAND + " " + ASSIGNMENT + Quoted(password) + "\n"
  }

  // ---------------------------------------------------------------- the shell's side

  datatype Mode = Unquoted | Single | AfterBackslash

  /**
   * The words read and the one being read; `Other` when an unquoted character has a meaning not read here, or on
   * NUL.
   */
  datatype Reading = Reading(mode: Mode, words: seq<string>, word: Option<string>) | Other

  const START := Reading(Unquoted, [], None)

  /** Operators, expansions, patterns, comments, double quotes. */
  predicate IsSpecial(c: char) {
    c in {'|', '&', ';', '<', '>', '(', ')', '$', '`', '"', '*', '?', '[', '#', '~', '\0'}
  }

  predicate IsBlank(c: char) {
    c == ' ' || c == '\t' || c == '\n'
  }

  function Appended(word: Option<string>, c: char): Option<string> {
    Some((if word.Some? then word.value else "") + [c])
  }

  function Step(r: Reading, c: char): Reading {
    match r
    case Other => Other
    case Reading(Unquoted, words, word) =>
      if c == '\'' then Reading(Single, words, if word.Some? then word else Some(""))
      else if c == '\\' then Reading(AfterBackslash, words, word)
      else if IsBlank(c) then Reading(Unquoted, words + (if word.Some? then [word.value] else []), None)
      else if IsSpecial(c) then Other
      else Reading(Unquoted, words, Appended(word, c))
    case Reading(Single, words, word) =>
      if c == '\'' then r.(mode := Unquoted)
      else if c == '\0' then Other
      else r.(word := Appended(word, c))
    case Reading(AfterBackslash, words, word) =>
      if c == '\n' then r.(mode := Unquoted) // a line continuation
      else if c == '\0' then Other
      else Reading(Unquoted, words, Appended(word, c))
  }

  function Read(r: Reading, s: string): Reading
    decreases |s|
  {
    if s == "" then r else Read(Step(r, s[0]), s[1..])
  }

  /** The words of a whole input that ends outside quotes. */
  function Words(s: string): Option<seq<string>> {
    match Read(START, s)
    case Reading(Unquoted, words, word) => Some(words + if word.Some? then [word.value] else [])
    case _ => None
  }

  lemma {:induction false} ReadConcat(r: Reading, a: string, b: string)
    ensures Read(r, a + b) == Read(Read(r, a), b)
    decreases |a|
  {
    if a == "" {
      assert a + b == b;
    } else {
      assert (a + b)[0] == a[0] && (a + b)[1..] == a[1..] + b;
      hide Step;
      ReadConcat(Step(r, a[0]), a[1..], b);
    }
  }

  lemma {:induction false} ReadOther(s: string)
    ensures Read(Other, s) == Other
  {
    if s != "" {
      ReadOther(s[1..]);
    }
  }

  /** One character of the password, as it is quoted. */
  lemma ReadsOne(words: seq<string>, w: string, c: char)
    requires c != '\0'
    ensures Read(Reading(Single, words, Some(w)), if c == '\'' then "'\\''" else [c]) ==
      Reading(Single, words, Some(w + [c]))
  {
    var r := Reading(Single, words, Some(w));
    if c == '\'' {
      var q := "'\\''";
      assert q[1..] == "\\''" && q[1..][1..] == "''" && q[1..][1..][1..] == "'" && q[1..][1..][1..][1..] == "";
      var r1 := Step(r, '\'');
      var r2 := Step(r1, '\\');
      var r3 := Step(r2, '\'');
      assert r3 == Reading(Unquoted, words, Some(w + ['\'']));
      var r4 := Step(r3, '\'');
      hide Step;
      assert Read(r3, "'") == Read(r4, "") == r4;
      assert Read(r2, "''") == Read(r3, "'");
      assert Read(r1, "\\''") == Read(r2, "''");
      assert Read(r, q) == Read(r1, "\\''");
    } else {
      assert [c][1..] == "";
    }
  }

  lemma {:induction false} ReadsEscaped(words: seq<string>, w: string, s: string)
    requires '\0' !in s
    ensures Read(Reading(Single, words, Some(w)), Escaped(s)) == Reading(Single, words, Some(w + s))
    decreases |s|
  {
    if s == "" {
      assert w + s == w;
    } else {
      var one := if s[0] == '\'' then "'\\''" else [s[0]];
      ReadConcat(Reading(Single, words, Some(w)), one, Escaped(s[1..]));
      ReadsOne(words, w, s[0]);
      ReadsEscaped(words, w + [s[0]], s[1..]);
      hide Read;
      assert w + [s[0]] + s[1..] == w + s;
    }
  }

  /** In the middle of a line: what was read of the word goes on with the password, outside quotes again. */
  lemma ReadsQuoted(words: seq<string>, word: Option<string>, s: string)
    requires '\0' !in s
    ensures Read(Reading(Unquoted, words, word), Quoted(s)) ==
      Reading(Unquoted, words, Some((if word.Some? then word.value else "") + s))
  {
    var r := Reading(Unquoted, words, word);
    var w := if word.Some? then word.value else "";
    ReadConcat(r, "'", Escaped(s) + "'");
    ReadConcat(Reading(Single, words, Some(w)), Escaped(s), "'");
    ReadsEscaped(words, w, s);
    assert "'" + (Escaped(s) + "'") == Quoted(s);
    assert "'"[1..] == "";
    assert Read(r, "'") == Read(Step(r, '\''), "") == Reading(Single, words, Some(w));
    var inside := Reading(Single, words, Some(w + s));
    assert Read(inside, "'") == Read(Step(inside, '\''), "") == Reading(Unquoted, words, Some(w + s));
  }

  lemma {:induction false} NulStays(words: seq<string>, w: string, s: string)
    requires '\0' in s
    ensures Read(Reading(Single, words, Some(w)), Escaped(s)) == Other
    decreases |s|
  {
    var one := if s[0] == '\'' then "'\\''" else [s[0]];
    var r := Reading(Single, words, Some(w));
    ReadConcat(r, one, Escaped(s[1..]));
    if s[0] == '\0' {
      assert [s[0]][1..] == "";
      assert Read(r, one) == Read(Step(r, s[0]), "") == Other;
      ReadOther(Escaped(s[1..]));
    } else {
      ReadsOne(words, w, s[0]);
      assert '\0' in s[1..];
      NulStays(words, w + [s[0]], s[1..]);
    }
  }

  /**
   * The shell reads exactly one word, the password itself, and ends outside quotes: if and only if there is no NUL
   * in it.
   */
  lemma QuotedIsOneWord(s: string)
    ensures Words(Quoted(s)) == Some([s]) <==> '\0' !in s
  {
    if '\0' !in s {
      ReadsQuoted([], None, s);
      hide Read;
      assert [] + [s] == [s] && "" + s == s;
    } else {
      ReadConcat(START, "'", Escaped(s) + "'");
      ReadConcat(Reading(Single, [], Some("")), Escaped(s), "'");
      NulStays([], "", s);
      ReadOther("'");
      assert "'" + (Escaped(s) + "'") == Quoted(s);
      assert "'"[1..] == "";
      assert Read(START, "'") == Read(Step(START, '\''), "") == Reading(Single, [], Some(""));
    }
  }

  predicate Plain(s: string) {
    forall i :: 0 <= i < |s| ==> s[i] != '\'' && s[i] != '\\' && !IsBlank(s[i]) && !IsSpecial(s[i])
  }

  lemma {:induction false} ReadsPlain(words: seq<string>, w: string, s: string)
    requires Plain(s)
    ensures Read(Reading(Unquoted, words, Some(w)), s) == Reading(Unquoted, words, Some(w + s))
    decreases |s|
  {
    if s == "" {
      assert w + s == w;
    } else {
      ReadsPlain(words, w + [s[0]], s[1..]);
      assert w + [s[0]] + s[1..] == w + s;
    }
  }

  lemma ReadsPlainWord(words: seq<string>, s: string)
    requires Plain(s) && s != ""
    ensures Read(Reading(Unquoted, words, None), s) == Reading(Unquoted, words, Some(s))
  {
    ReadsPlain(words, [s[0]], s[1..]);
    assert "" + [s[0]] == [s[0]] && [s[0]] + s[1..] == s;
  }

  lemma ReadsBlank(words: seq<string>, w: string, c: char)
    requires IsBlank(c)
    ensures Read(Reading(Unquoted, words, Some(w)), [c]) == Reading(Unquoted, words + [w], None)
  {
    assert [c][1..] == "";
    var r := Step(Reading(Unquoted, words, Some(w)), c);
    assert Read(r, "") == r;
  }

  lemma ReadsAssignment(command: string, name: string, password: string)
    requires Plain(command) && Plain(name) && command != "" && name != "" && '\0' !in password
    ensures Read(START, command + " " + name + Quoted(password)) == Reading(Unquoted, [command], Some(name + password))
  {
    ReadConcat(START, command, " ");
    ReadConcat(START, command + " ", name);
    ReadConcat(START, command + " " + name, Quoted(password));
    ReadsPlainWord([], command);
    ReadsBlank([], command, ' ');
    ReadsPlainWord([command], name);
    ReadsQuoted([command], Some(name), password);
    hide Read, Plain, Quoted;
    assert [] + [command] == [command];
  }

  /**
   * The printed line sets the variable to the password, with or without the newline a command substitution takes
   * away.
   */
  lemma ExportLineSetsPassword(password: string)
    requires '\0' !in password
    ensures var line := ExportLine(password);
      Words(line) == Words(line[..|line| - 1]) == Some([COMMAND, ASSIGNMENT + password])
  {
    var line := ExportLine(password);
    var short := COMMAND + " " + ASSIGNMENT + Quoted(password);
    assert line == short + "\n" && line[..|line| - 1] == short;
    hide Read, Quoted, ExportLine;
    ReadsAssignment(COMMAND, ASSIGNMENT, password);
    ReadConcat(START, short, "\n");
    ReadsBlank([COMMAND], ASSIGNMENT + password, '\n');
    var words := [COMMAND, ASSIGNMENT + password];
    assert Read(START, short) == Reading(Unquoted, [COMMAND], Some(ASSIGNMENT + password));
    assert Read(START, line) == Reading(Unquoted, [COMMAND] + [ASSIGNMENT + password], None);
    assert [COMMAND] + [ASSIGNMENT + password] == words && words + [] == words;
  }
}
