/** Setting a password for the first time and logging in with it: the screen, the store, and every run of the two. */
module Login {
  import opened Text
  import opened Envelope

  const SALT_KEY := "encryption_salt"

  const SENTINEL_KEY := "password_sentinel"

  const KEY_LENGTH := 32

  const SALT_LENGTH := 32

  /** The bytes of "lazyswap-v1-ok". */
  const SENTINEL: Bytes := [108, 97, 122, 121, 115, 119, 97, 112, 45, 118, 49, 45, 111, 107]

  /** What the Unicode tables say of a character. */
  datatype Kind = LowerLetter | UpperLetter | DecimalDigit | AnythingElse

  /** Deriving a key from a password and a salt, the cipher it is used with, and the classes of characters. */
  datatype Library = Library(derive: (string, Bytes) -> Bytes, aead: Aead, kind: char -> Kind)

  ghost predicate Sound(c: Library) {
    Lawful(c.aead) && forall password, salt :: |c.derive(password, salt)| == KEY_LENGTH
  }

  type Config = map<string, string>

  predicate Initialised(config: Config) {
    SALT_KEY in config && SENTINEL_KEY in config
  }

  datatype UnlockError = NotInitialised | BadSalt | BadKey | InvalidPassword

  function Unlock(c: Library, config: Config, password: string): Result<Bytes, UnlockError> {
    if SALT_KEY !in config then Err(NotInitialised)
    else
      var salt := Decode(config[SALT_KEY]);
      if salt.None? then Err(BadSalt)
      else
        var key := c.derive(password, salt.value);
        if |key| != KEY_LENGTH then Err(BadKey)
        else if SENTINEL_KEY !in config then Err(NotInitialised)
        else if Decrypt(c.aead, key, config[SENTINEL_KEY]) != Ok(SENTINEL) then Err(InvalidPassword)
        else Ok(key)
  }

  /** The sentinel opens with the key of this password and the stored salt. */
  lemma SealedOpens(c: Library, config: Config, password: string, salt: Bytes, iv: Bytes, envelope: string)
    requires Sound(c) && |iv| == IV_LENGTH
    requires SALT_KEY in config && config[SALT_KEY] == Encode(salt)
    requires SENTINEL_KEY in config && config[SENTINEL_KEY] == envelope
    requires Encrypt(c.aead, c.derive(password, salt), iv, SENTINEL) == Some(envelope)
    ensures Unlock(c, config, password) == Ok(c.derive(password, salt))
  {
    DecodeUndoesEncode(salt);
    DecryptUndoesEncrypt(c.aead, c.derive(password, salt), iv, SENTINEL);
  }

  /** The bytes of an ASCII text. */
  function Spelled(s: string): Bytes
    requires forall i :: 0 <= i < |s| ==> s[i] < '\U{0080}'
  {
    seq(|s|, i requires 0 <= i < |s| => s[i] as int)
  }

  lemma SentinelSpelled()
    ensures SENTINEL == Spelled("lazyswap-v1-ok")
  {}

  /** The envelope is, but for the case of its digits, an encryption of that text under this key. */
  ghost predicate SealsSentinel(a: Aead, key: Bytes, envelope: string) {
    exists iv: Bytes :: |iv| == 16 && Encrypt(a, key, iv, Spelled("lazyswap-v1-ok")) == Some(Lower(envelope))
  }

  /**
   * A store unlocks with a password if and only if it holds a salt that decodes and a sentinel sealed under the key of
   * that password and salt, of 32 bytes; that key is what it unlocks to. Every refusal has its own cause.
   */
  lemma UnlocksExactlyWhen(c: Library, config: Config, password: string)
    requires Lawful(c.aead)
    ensures var r := Unlock(c, config, password);
      var salt := if "encryption_salt" in config then Decode(config["encryption_salt"]) else None;
      var key := if salt.Some? then c.derive(password, salt.value) else [];
      var sealed := "password_sentinel" in config && SealsSentinel(c.aead, key, config["password_sentinel"]);
      && (r.Ok? <==> salt.Some? && |key| == 32 && sealed)
      && (r.Ok? ==> r.value == key)
      && (r == Err(NotInitialised) <==>
           "encryption_salt" !in config || (salt.Some? && |key| == 32 && "password_sentinel" !in config))
      && (r == Err(BadSalt) <==> "encryption_salt" in config && salt.None?)
      && (r == Err(BadKey) <==> salt.Some? && |key| != 32)
      && (r == Err(InvalidPassword) <==> salt.Some? && |key| == 32 && "password_sentinel" in config && !sealed)
  {
    SentinelSpelled();
    hide Decode, Encrypt, Decrypt, Lower, Spelled;
    if SALT_KEY in config && Decode(config[SALT_KEY]).Some? && SENTINEL_KEY in config {
      OpensExactlyEncryptions(c.aead, c.derive(password, Decode(config[SALT_KEY]).value), config[SENTINEL_KEY],
        SENTINEL);
    }
  }

  // ---------------------------------------------------------------- the store

  class Store {
    var config: Config

    constructor ()
      ensures config == map[]
    {
      config := map[];
    }

    /** Inserts or replaces; a failure changes nothing. */
    method Set(key: string, value: string) returns (ok: bool)
      modifies this
      ensures config == if ok then old(config)[key := value] else old(config)
    {
      ok := *;
      if ok {
        config := config[key := value];
      }
    }

    /** First access: derives a key and stores the salt, then the sentinel. The randomness comes from outside. */
    method DeriveAndInit(c: Library, password: string, salt: Bytes, iv: Bytes) returns (key: Option<Bytes>)
      requires Sound(c) && |iv| == IV_LENGTH
      modifies this
      ensures key.Some? ==> Unlock(c, config, password) == Ok(key.value)
      ensures config - {SALT_KEY, SENTINEL_KEY} == old(config) - {SALT_KEY, SENTINEL_KEY}
      ensures key.None? ==> config == old(config) || config == old(config)[SALT_KEY := Encode(salt)]
    {
      var k := c.derive(password, salt);
      var envelope := Encrypt(c.aead, k, iv, SENTINEL);
      if |k| != KEY_LENGTH || envelope.None? {
        return None;
      }
      var ok := Set(SALT_KEY, Encode(salt));
      if !ok {
        return None;
      }
      ok := Set(SENTINEL_KEY, envelope.value);
      if !ok {
        return None;
      }
      SealedOpens(c, config, password, salt, iv, envelope.value);
      key := Some(k);
    }
  }

  // ---------------------------------------------------------------- passwords

  /** How many bytes UTF-8 takes for a character. */
  function Utf8Length(c: char): nat {
    if c < '\U{0080}' then 1 else if c < '\U{0800}' then 2 else if c < '\U{010000}' then 3 else 4
  }

  function ByteLength(s: string): nat {
    if s == "" then 0 else Utf8Length(s[0]) + ByteLength(s[1..])
  }

  /** What `n` bytes of UTF-8 have room for. */
  function Room(n: nat): nat {
    if n == 0 then 0 else if n == 1 then 0x80 else if n == 2 then 0x800 else if n == 3 then 0x1_0000 else 0x20_0000
  }

  /** Of a text of characters it is the sum of the fewest bytes with room for each. */
  lemma BytesOfText(s: string, c: char)
    ensures ByteLength("") == 0 && ByteLength([c] + s) == ByteLength([c]) + ByteLength(s)
    ensures var n := ByteLength([c]);
      1 <= n <= 4 && Room(n - 1) <= c as int < Room(n)
  {
    assert ([c] + s)[1..] == s && [c][1..] == "";
  }

  predicate Has(kind: char -> Kind, s: string, k: Kind) {
    exists i :: 0 <= i < |s| && kind(s[i]) == k
  }

  /** At least eight bytes, with a small letter, a capital and a digit among the characters. */
  predicate Acceptable(kind: char -> Kind, password: string) {
    && ByteLength(password) >= 8
    && Has(kind, password, LowerLetter) && Has(kind, password, UpperLetter) && Has(kind, password, DecimalDigit)
  }

  method ValidatePassword(kind: char -> Kind, password: string) returns (complaint: string)
    ensures complaint == "" <==> Acceptable(kind, password)
    ensures complaint == "" <==>
      && ByteLength(password) >= 8
      && (exists i :: 0 <= i < |password| && kind(password[i]) == LowerLetter)
      && (exists i :: 0 <= i < |password| && kind(password[i]) == UpperLetter)
      && (exists i :: 0 <= i < |password| && kind(password[i]) == DecimalDigit)
  {
    if ByteLength(password) < 8 {
      return "Password must be at least 8 characters.";
    }
    var hasLower, hasUpper, hasDigit := false, false, false;
    for i := 0 to |password|
      invariant hasLower <==> exists j :: 0 <= j < i && kind(password[j]) == LowerLetter
      invariant hasUpper <==> exists j :: 0 <= j < i && kind(password[j]) == UpperLetter
      invariant hasDigit <==> exists j :: 0 <= j < i && kind(password[j]) == DecimalDigit
    {
      match kind(password[i]) {
        case LowerLetter => hasLower := true;
        case UpperLetter => hasUpper := true;
        case DecimalDigit => hasDigit := true;
        case AnythingElse =>
      }
    }
    if !hasLower {
      return "Password must contain at least one lowercase letter.";
    }
    if !hasUpper {
      return "Password must contain at least one uppercase letter.";
    }
    if !hasDigit {
      return "Password must contain at least one digit.";
    }
    complaint := "";
  }

  // ---------------------------------------------------------------- the screen

  const CHAR_LIMIT := 128

  /** `failed` is whether an error is shown. */
  datatype Screen = Screen(
    input: string, isFirstAccess: bool, awaitingConfirm: bool, firstEntry: string, failed: bool, busy: bool)

  datatype Msg = Edit(text: string) | Enter | Esc | Success(key: Bytes) | Failure

  datatype Cmd = InitCmd(password: string) | VerifyCmd(password: string) | Announce(key: Bytes)

  function NewScreen(config: Config): Screen {
    Screen("", !Initialised(config), false, "", false, false)
  }

  function Submitted(kind: char -> Kind, s: Screen): (Screen, Option<Cmd>) {
    var (pw, t) := (s.input, s.(input := "", failed := false));
    if s.isFirstAccess && !s.awaitingConfirm then
      if !Acceptable(kind, pw) then (t.(failed := true), None)
      else (t.(firstEntry := pw, awaitingConfirm := true), None)
    else if s.isFirstAccess && pw != s.firstEntry then
      (t.(awaitingConfirm := false, firstEntry := "", failed := true), None)
    else if s.isFirstAccess then (t.(busy := true), Some(InitCmd(pw)))
    else (t.(busy := true), Some(VerifyCmd(pw)))
  }

  function Updated(kind: char -> Kind, s: Screen, msg: Msg): (Screen, Option<Cmd>) {
    match msg
    case Success(key) => (s, Some(Announce(key)))
    case Failure => (s.(busy := false, failed := true, input := ""), None)
    case Enter => if s.busy then (s, None) else Submitted(kind, s)
    case Esc =>
      if s.busy then (s, None)
      else if s.isFirstAccess && s.awaitingConfirm then
        (s.(awaitingConfirm := false, firstEntry := "", input := ""), None)
      else (s.(failed := false), None)
    case Edit(text) =>
      if s.busy || |text| > CHAR_LIMIT then (s, None) else (s.(input := text, failed := false), None)
  }

  /**
   * What enter does with the password typed: a first one that is acceptable is kept to be confirmed, the same one
   * again sets the password, a different one starts over; and once a password is set, it is only ever verified.
   */
  lemma SubmitMeaning(kind: char -> Kind, s: Screen)
    ensures var (first, pw) := (s.isFirstAccess, s.input);
      Submitted(kind, s) ==
        if !first then (Screen("", false, s.awaitingConfirm, s.firstEntry, false, true), Some(VerifyCmd(pw)))
        else if s.awaitingConfirm && pw == s.firstEntry then
          (Screen("", true, true, pw, false, true), Some(InitCmd(pw)))
        else if s.awaitingConfirm then (Screen("", true, false, "", true, s.busy), None)
        else if Acceptable(kind, pw) then (Screen("", true, true, pw, false, s.busy), None)
        else (Screen("", true, false, s.firstEntry, true, s.busy), None)
  {
    hide Acceptable;
  }

  /** What the screen makes of everything else; while a derivation is under way nothing the user does matters. */
  lemma ScreenAnswers(kind: char -> Kind, s: Screen, msg: Msg)
    ensures var (t, cmd) := Updated(kind, s, msg);
      && (s.busy && (msg.Edit? || msg.Enter? || msg.Esc?) ==> t == s && cmd == None)
      && (!s.busy && msg.Enter? ==> (t, cmd) == Submitted(kind, s))
      && (msg.Success? ==> t == s && cmd == Some(Announce(msg.key)))
      && (msg.Failure? ==> t == Screen("", s.isFirstAccess, s.awaitingConfirm, s.firstEntry, true, false))
      && (!s.busy && msg.Edit? ==>
           t == if |msg.text| > 128 then s
                else Screen(msg.text, s.isFirstAccess, s.awaitingConfirm, s.firstEntry, false, false))
      && (!s.busy && msg.Esc? ==>
           t == if s.isFirstAccess && s.awaitingConfirm then Screen("", true, false, "", s.failed, false)
                else Screen(s.input, s.isFirstAccess, s.awaitingConfirm, s.firstEntry, false, false))
      && (cmd.Some? ==> msg.Success? || (msg.Enter? && !s.busy))
  {
    hide Submitted;
  }

  class Model {
    const kind: char -> Kind
    var input: string
    var isFirstAccess: bool
    var awaitingConfirm: bool
    var firstEntry: string
    var failed: bool
    var busy: bool

    function State(): Screen
      reads this
    {
      Screen(input, isFirstAccess, awaitingConfirm, firstEntry, failed, busy)
    }

    constructor (kind: char -> Kind, store: Store)
      ensures State() == NewScreen(store.config) && this.kind == kind
    {
      this.kind := kind;
      input, isFirstAccess, awaitingConfirm := "", !(SALT_KEY in store.config && SENTINEL_KEY in store.config), false;
      firstEntry, failed, busy := "", false, false;
    }

    method ResetConfirm()
      modifies this
      ensures State() == old(State()).(awaitingConfirm := false, firstEntry := "", input := "")
    {
      awaitingConfirm, firstEntry, input := false, "", "";
    }

    method Submit() returns (cmd: Option<Cmd>)
      modifies this
      ensures (State(), cmd) == Submitted(kind, old(State()))
    {
      var pw := input;
      input, failed := "", false;
      if isFirstAccess && !awaitingConfirm {
        var complaint := ValidatePassword(kind, pw);
        if complaint != "" {
          failed := true;
          return None;
        }
        firstEntry, awaitingConfirm := pw, true;
        return None;
      }
      if isFirstAccess && awaitingConfirm {
        if pw != firstEntry {
          ResetConfirm();
          failed := true;
          return None;
        }
        busy := true;
        return Some(InitCmd(pw));
      }
      busy := true;
      cmd := Some(VerifyCmd(pw));
    }

    method Update(msg: Msg) returns (cmd: Option<Cmd>)
      modifies this
      ensures (State(), cmd) == Updated(kind, old(State()), msg)
    {
      cmd := None;
      match msg {
        case Success(key) =>
          return Some(Announce(key));
        case Failure =>
          busy, failed, input := false, true, "";
          return;
        case Enter =>
          if !busy {
            cmd := Submit();
          }
          return;
        case Esc =>
          if !busy && isFirstAccess && awaitingConfirm {
            ResetConfirm();
            return;
          }
        case Edit(_) =>
      }
      if busy {
        return;
      }
      if msg.Esc? {
        failed := false;
      } else if |msg.text| <= CHAR_LIMIT {
        input, failed := msg.text, false;
      }
    }
  }
}
