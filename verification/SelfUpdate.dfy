/**
 * Installing a release over the running binary, file system step by file system step. The directory remembers
 * every state it went through, so whatever holds of all of them holds wherever the process is killed.
 */
module SelfUpdate {
  import opened Text

  const MAX_BINARY_BYTES := 209_715_200

  const MAX_META_BYTES := 1_048_576

  const BINARY_NAME := "lazyswap"

  const PROBE := ".lazyswap-probe-"

  const DOWNLOAD := ".lazyswap-download-"

  const STAGED := ".lazyswap-staged-"

  datatype File = File(content: Bytes, executable: bool)

  type State = map<string, File>

  function At(s: State, name: string): Option<File> {
    if name in s then Some(s[name]) else None
  }

  /** Every state of `now` that is not yet in `before` is `from` but for one file. */
  ghost predicate Touches(before: seq<State>, now: seq<State>, from: State, name: string) {
    && before <= now
    && forall k :: |before| <= k < |now| ==> now[k] - {name} == from - {name}
  }

  /** From one moment to another nothing changed but for one temporary file, which is new; None when nothing did. */
  ghost predicate OnlyTemp(files: State, history: seq<State>, files': State, history': seq<State>,
      temp: Option<string>, prefix: string) {
    match temp
    case None => files' == files && history' == history
    case Some(n) => prefix <= n && n !in files && Touches(history, history', files, n) && files' - {n} == files
  }

  /** As before, and then the temporary file, holding `file`, took the place of `exe` in one step. */
  ghost predicate Moved(files: State, history: seq<State>, files': State, history': seq<State>, temp: Option<string>,
      exe: string, file: File) {
    && |history'| > |history| && history'[|history'| - 1] == files' == files[exe := file]
    && temp.Some? && STAGED <= temp.value && temp.value !in files
    && Touches(history, history'[..|history'| - 1], files, temp.value)
  }

  lemma Apart(f: State, g: State, n: string, m: string)
    requires f - {n} == g - {n} && m != n
    ensures At(f, m) == At(g, m)
  {
    assert At(f, m) == At(f - {n}, m) && At(g, m) == At(g - {n}, m);
  }

  lemma Begins(f: State, h: seq<State>, g: State, n: string, prefix: string)
    requires prefix <= n && n !in f && g - {n} == f - {n}
    ensures OnlyTemp(f, h, g, h + [g], Some(n), prefix)
  {
    assert f - {n} == f;
  }

  lemma Continues(f: State, h: seq<State>, f1: State, h1: seq<State>, f2: State, h2: seq<State>, n: string,
      prefix: string)
    requires OnlyTemp(f, h, f1, h1, Some(n), prefix)
    requires Touches(h1, h2, f1, n) && f2 - {n} == f1 - {n}
    ensures OnlyTemp(f, h, f2, h2, Some(n), prefix) && f2 - {n} == f
  {
    assert f - {n} == f;
    forall k | |h| <= k < |h2|
      ensures h2[k] - {n} == f - {n}
    {
      if k < |h1| {
        assert h2[k] == h1[k];
      }
    }
  }

  lemma Ends(f: State, g: State, n: string, x: File)
    requires n !in f && g - {n} == f
    ensures n !in g ==> g == f
    ensures At(g, n) == Some(x) ==> g == f[n := x]
  {
    assert n !in g ==> g - {n} == g;
    if At(g, n) == Some(x) {
      assert g == (g - {n})[n := x];
    }
  }

  lemma Renamed(f: State, h: seq<State>, f1: State, h1: seq<State>, f2: State, h2: seq<State>, n: string, exe: string,
      file: File)
    requires OnlyTemp(f, h, f1, h1, Some(n), STAGED) && n in f1 && f1[n] == file && n != exe
    requires f2 == (f1 - {n})[exe := file] && h2 == h1 + [f2]
    ensures Moved(f, h, f2, h2, Some(n), exe, file)
  {
    assert f1 - {n} == f;
    assert h2[..|h2| - 1] == h1;
  }

  class Directory {
    var files: State
    ghost var history: seq<State>
    ghost var faulty: bool   // some step failed by itself
    ghost var stuck: bool    // some removal did

    /** A new empty file under a name nobody has. */
    method CreateTemp(prefix: string) returns (name: Option<string>)
      modifies this
      ensures stuck == old(stuck) && (faulty <==> old(faulty) || name.None?)
      ensures name.None? ==> files == old(files) && history == old(history)
      ensures name.Some? ==>
        && prefix <= name.value && name.value !in old(files)
        && files == old(files)[name.value := File([], false)] && history == old(history) + [files]
    {
      var suffix: string := *;
      var refused: bool := *;
      if refused || prefix + suffix in files {
        faulty := true;
        return None;
      }
      files := files[prefix + suffix := File([], false)];
      history := history + [files];
      name := Some(prefix + suffix);
    }

    /** Appends in any number of pieces; a failure leaves some of them. */
    method Append(name: string, data: Bytes) returns (ok: bool)
      requires name in files
      modifies this
      ensures stuck == old(stuck) && (faulty <==> old(faulty) || !ok)
      ensures Touches(old(history), history, old(files), name)
      ensures name in files && files - {name} == old(files) - {name}
      ensures ok ==> files == old(files)[name := old(files[name]).(content := old(files[name]).content + data)]
    {
      ghost var (start, was) := (files, files[name]);
      assert was.content + data[..0] == was.content;
      var done := 0;
      while done < |data|
        invariant done <= |data|
        invariant files == start[name := was.(content := was.content + data[..done])]
        invariant Touches(old(history), history, start, name)
        invariant stuck == old(stuck) && faulty == old(faulty)
      {
        if * {
          faulty := true;
          return false;
        }
        var n :| done < n <= |data|;
        assert was.content + data[..n] == was.content + data[..done] + data[done..n];
        files := files[name := files[name].(content := files[name].content + data[done..n])];
        history := history + [files];
        done := n;
      }
      assert data[..|data|] == data;
      ok := true;
    }

    method MakeExecutable(name: string) returns (ok: bool)
      requires name in files
      modifies this
      ensures stuck == old(stuck) && (faulty <==> old(faulty) || !ok)
      ensures Touches(old(history), history, old(files), name)
      ensures name in files && files - {name} == old(files) - {name}
      ensures ok ==> files == old(files)[name := old(files[name]).(executable := true)]
    {
      if * {
        faulty := true;
        return false;
      }
      files := files[name := files[name].(executable := true)];
      history := history + [files];
      ok := true;
    }

    /** Closing a file, or opening one, changes nothing but may fail. */
    method Attempt() returns (ok: bool)
      modifies this`faulty
      ensures faulty <==> old(faulty) || !ok
    {
      ok := *;
      faulty := faulty || !ok;
    }

    method Remove(name: string)
      modifies this
      ensures (old(faulty) ==> faulty) && (old(stuck) ==> stuck)
      ensures Touches(old(history), history, old(files), name)
      ensures files - {name} == old(files) - {name}
      ensures name !in files || stuck
      ensures !faulty ==> name !in files
    {
      if * {
        faulty, stuck := true, true;
      } else {
        files := files - {name};
        history := history + [files];
      }
    }

    /** Within one directory this is a single step. */
    method Rename(from: string, to: string) returns (ok: bool)
      requires from in files && from != to
      modifies this
      ensures stuck == old(stuck) && (faulty <==> old(faulty) || !ok)
      ensures ok ==> files == (old(files) - {from})[to := old(files)[from]] && history == old(history) + [files]
      ensures !ok ==> files == old(files) && history == old(history)
    {
      if * {
        faulty := true;
        return false;
      }
      files := (files - {from})[to := files[from]];
      history := history + [files];
      ok := true;
    }
  }

  // ---------------------------------------------------------------- what may be installed

  /** What a connection delivers before it ends or breaks. */
  datatype Download = Download(content: Bytes, breaks: bool)

  datatype Entry = Entry(name: string, regular: bool, data: Download)

  /** A decoded archive: its entries in order, and whether it then ends cleanly. */
  datatype Archive = NotGzip | Archive(entries: seq<Entry>, clean: bool)

  /** What is read through a limit. */
  function Cut(b: Bytes): Bytes {
    if |b| <= MAX_BINARY_BYTES then b else b[..MAX_BINARY_BYTES]
  }

  /** A break past the limit is never noticed. */
  predicate Delivered(d: Download) {
    d.breaks ==> |d.content| >= MAX_BINARY_BYTES
  }

  /** Exactly one regular file of the right name, and nothing wrong with what follows. */
  predicate IsRelease(a: Archive) {
    && a.Archive? && |a.entries| == 1 && a.clean
    && a.entries[0].name == BINARY_NAME && a.entries[0].regular && !a.entries[0].data.breaks
  }

  predicate IsHex(c: char) {
    '0' <= c <= '9' || 'a' <= c <= 'f'
  }

  predicate IsDigest(s: string) {
    |s| == 64 && forall i :: 0 <= i < 64 ==> IsHex(s[i])
  }

  /** The digest in a published checksum file; None when there is none. */
  function Published(text: string): Option<string> {
    var fields := Fields(if |text| <= MAX_META_BYTES then text else text[..MAX_META_BYTES]);
    var sum := if fields == [] then "" else Lower(fields[0]);
    if IsDigest(sum) then Some(sum) else None
  }

  /** A checksum text of which at most 1 MiB is read, and whose first field is this digest but for case. */
  ghost predicate Publishes(text: string, sum: string) {
    var fields := Fields(if |text| <= 1_048_576 then text else text[..1_048_576]);
    && fields != [] && Lower(fields[0]) == sum && |sum| == 64
    && forall i :: 0 <= i < 64 ==> '0' <= sum[i] <= '9' || 'a' <= sum[i] <= 'f'
  }

  lemma PublishedExactly(text: string, sum: string)
    ensures Published(text) == Some(sum) <==> Publishes(text, sum)
  {
    hide Lower;
    assert IsDigest(sum) <==> |sum| == 64 && forall i :: 0 <= i < 64 ==> '0' <= sum[i] <= '9' || 'a' <= sum[i] <= 'f';
    hide IsDigest;
  }

  /** A line of `sha256sum`, in either case, publishes its digest. */
  lemma ChecksumLine(sum: string, fileName: string)
    requires |sum| == 64 && forall i :: 0 <= i < 64 ==> IsHex(LowerChar(sum[i]))
    ensures Published(sum + "  " + fileName + "\n") == Some(Lower(sum))
  {
    var line := sum + "  " + fileName + "\n";
    var text := if |line| <= MAX_META_BYTES then line else line[..MAX_META_BYTES];
    var rest := text[64..];
    assert text == sum + rest && rest[0] == ' ';
    forall i | 0 <= i < 64
      ensures !IsSpace(sum[i])
    {
      assert IsHex(LowerChar(sum[i]));
    }
    assert SkipSpace(text) == text by {
      assert text[0] == sum[0];
    }
    WordStops(sum, rest);
    assert forall i :: 0 <= i < 64 ==> Lower(sum)[i] == LowerChar(sum[i]);
  }

  /** The file staged from a release. */
  function Staged(a: Archive): File
    requires IsRelease(a)
  {
    File(Cut(a.entries[0].data.content), true)
  }

  datatype Failure = NotWritable | DownloadFailed | ChecksumFailed | Mismatch | BadArchive | ReplaceFailed

  class Updater {
    const digest: Bytes -> string
    const unpack: Bytes -> Archive
    const dir: Directory

    constructor (digest: Bytes -> string, unpack: Bytes -> Archive, dir: Directory)
      ensures this.digest == digest && this.unpack == unpack && this.dir == dir
    {
      this.digest := digest;
      this.unpack := unpack;
      this.dir := dir;
    }

    /** The downloaded bytes are the published ones. */
    predicate Verified(tarball: Option<Download>, checksum: Option<string>) {
      && tarball.Some? && Delivered(tarball.value)
      && checksum.Some? && Published(checksum.value) == Some(digest(Cut(tarball.value.content)))
    }

    /** The file that takes the place of the binary, when there is one. */
    function Payload(tarball: Option<Download>, checksum: Option<string>): Option<File> {
      if Verified(tarball, checksum) && IsRelease(unpack(Cut(tarball.value.content)))
      then Some(Staged(unpack(Cut(tarball.value.content))))
      else None
    }

    /** At most 200 MiB of what there is. */
    ghost predicate FirstOf(b: Bytes, all: Bytes) {
      b == if |all| <= 209_715_200 then all else all[..209_715_200]
    }

    /**
     * What may take the place of the binary, from what was downloaded: bytes that did not break off before the limit
     * and whose digest is published, unpacking to exactly one whole regular file "lazyswap" and nothing after it.
     */
    lemma PayloadExactly(tarball: Option<Download>, checksum: Option<string>, file: File)
      ensures Payload(tarball, checksum) == Some(file) <==>
        && tarball.Some? && checksum.Some?
        && (tarball.value.breaks ==> |tarball.value.content| >= 209_715_200)
        && exists got, entry ::
             && FirstOf(got, tarball.value.content) && Publishes(checksum.value, digest(got))
             && unpack(got) == Archive([Entry("lazyswap", true, Download(entry, false))], true)
             && FirstOf(file.content, entry) && file.executable
    {
      if tarball.None? || checksum.None? {
        return;
      }
      var got := Cut(tarball.value.content);
      PublishedExactly(checksum.value, digest(got));
      hide Published, Publishes;
      if Payload(tarball, checksum) == Some(file) {
        var e := unpack(got).entries[0];
        assert unpack(got).entries == [e] && e == Entry("lazyswap", true, Download(e.data.content, false));
        assert FirstOf(got, tarball.value.content) && FirstOf(file.content, e.data.content);
      }
    }

    /** Copies what a reader delivers, up to the limit. */
    method Copy(name: string, source: Download) returns (ok: bool)
      requires name in dir.files
      modifies dir
      ensures dir.stuck == old(dir.stuck) && (old(dir.faulty) ==> dir.faulty)
      ensures Touches(old(dir.history), dir.history, old(dir.files), name)
      ensures name in dir.files && dir.files - {name} == old(dir.files) - {name}
      ensures ok ==> Delivered(source) && dir.faulty == old(dir.faulty)
      ensures ok ==>
        dir.files[name] == old(dir.files[name]).(content := old(dir.files[name]).content + Cut(source.content))
      ensures !ok ==> dir.faulty || !Delivered(source)
    {
      ok := dir.Append(name, Cut(source.content));
      ok := ok && Delivered(source);
    }

    method CheckWritable() returns (ok: bool, ghost probe: Option<string>)
      modifies dir
      ensures (old(dir.faulty) ==> dir.faulty) && (old(dir.stuck) ==> dir.stuck)
      ensures OnlyTemp(old(dir.files), old(dir.history), dir.files, dir.history, probe, PROBE)
      ensures !dir.stuck ==> dir.files == old(dir.files)
      ensures !dir.faulty ==> ok && dir.files == old(dir.files)
    {
      var name := dir.CreateTemp(PROBE);
      probe := name;
      if name.None? {
        return false, probe;
      }
      dir.Remove(name.value);
      ok := true;
    }

    method DownloadTemp(tarball: Option<Download>) returns (r: Option<string>, ghost temp: Option<string>)
      modifies dir
      ensures (old(dir.faulty) ==> dir.faulty) && (old(dir.stuck) ==> dir.stuck)
      ensures OnlyTemp(old(dir.files), old(dir.history), dir.files, dir.history, temp, DOWNLOAD)
      ensures r.Some? ==>
        && r == temp && tarball.Some? && Delivered(tarball.value)
        && dir.files == old(dir.files)[r.value := File(Cut(tarball.value.content), false)]
      ensures r.None? && !dir.stuck ==> dir.files == old(dir.files)
      ensures r.None? && !dir.faulty ==> tarball.None? || !Delivered(tarball.value)
    {
      if tarball.None? {
        return None, None;
      }
      ghost var (f, h) := (dir.files, dir.history);
      var name := dir.CreateTemp(DOWNLOAD);
      temp := name;
      if name.None? {
        return None, temp;
      }
      ghost var (n, file) := (name.value, File(Cut(tarball.value.content), false));
      assert file.content == [] + file.content;
      hide OnlyTemp, Touches, Cut;
      Begins(f, h, dir.files, n, DOWNLOAD);
      ghost var (f1, h1) := (dir.files, dir.history);
      var ok := Copy(name.value, tarball.value);
      Continues(f, h, f1, h1, dir.files, dir.history, n, DOWNLOAD);
      if ok {
        ok := dir.Attempt();
      }
      if !ok {
        f1, h1 := dir.files, dir.history;
        dir.Remove(name.value);
        Continues(f, h, f1, h1, dir.files, dir.history, n, DOWNLOAD);
      }
      Ends(f, dir.files, n, file);
      r := if ok then name else None;
    }

    /** Stages an entry as an executable file. */
    method WriteExecutable(data: Download) returns (r: Option<string>, ghost temp: Option<string>)
      modifies dir
      ensures (old(dir.faulty) ==> dir.faulty) && (old(dir.stuck) ==> dir.stuck)
      ensures OnlyTemp(old(dir.files), old(dir.history), dir.files, dir.history, temp, STAGED)
      ensures r.Some? ==> r == temp && dir.files == old(dir.files)[r.value := File(Cut(data.content), true)]
      ensures r.None? && !dir.stuck ==> dir.files == old(dir.files)
      ensures r.None? && !dir.faulty ==> !Delivered(data)
    {
      ghost var (f, h) := (dir.files, dir.history);
      var name := dir.CreateTemp(STAGED);
      temp := name;
      if name.None? {
        return None, temp;
      }
      ghost var (n, file) := (name.value, File(Cut(data.content), true));
      assert file.content == [] + file.content;
      hide OnlyTemp, Touches, Cut;
      Begins(f, h, dir.files, n, STAGED);
      ghost var (f1, h1) := (dir.files, dir.history);
      var ok := Copy(name.value, data);
      Continues(f, h, f1, h1, dir.files, dir.history, n, STAGED);
      f1, h1 := dir.files, dir.history;
      if ok {
        ok := dir.MakeExecutable(name.value);
        Continues(f, h, f1, h1, dir.files, dir.history, n, STAGED);
        f1, h1 := dir.files, dir.history;
      }
      if ok {
        ok := dir.Attempt();
      }
      if !ok {
        dir.Remove(name.value);
        Continues(f, h, f1, h1, dir.files, dir.history, n, STAGED);
      }
      Ends(f, dir.files, n, file);
      r := if ok then name else None;
    }

    /** Stages the only entry of an archive, and refuses every other kind of archive. */
    method ExtractBinary(tarball: string) returns (r: Option<string>, ghost temp: Option<string>)
      requires tarball in dir.files
      modifies dir
      ensures (old(dir.faulty) ==> dir.faulty) && (old(dir.stuck) ==> dir.stuck)
      ensures OnlyTemp(old(dir.files), old(dir.history), dir.files, dir.history, temp, STAGED)
      ensures var a := unpack(old(dir.files[tarball].content));
        && (r.Some? ==> r == temp && IsRelease(a) && dir.files == old(dir.files)[r.value := Staged(a)])
        && (r.None? && !dir.stuck ==> dir.files == old(dir.files))
        && (r.None? && !dir.faulty ==> !IsRelease(a))
    {
      temp := None;
      var ok := dir.Attempt();
      var a := unpack(dir.files[tarball].content);
      if !ok || a.NotGzip? || a.entries == [] || a.entries[0].name != BINARY_NAME || !a.entries[0].regular {
        return None, temp;
      }
      r, temp := WriteExecutable(a.entries[0].data);
      if r.Some? && (|a.entries| > 1 || !a.clean || a.entries[0].data.breaks) {
        dir.Remove(r.value);
        r := None;
      }
    }

    /**
     * Checks the digest of a download, stages what is in it and moves that over the binary. Nothing is staged
     * unless the digests match.
     */
    method Replace(exe: string, download: string, checksum: Option<string>)
      returns (ok: bool, ghost temp: Option<string>)
      requires download in dir.files && (exe in dir.files || !IsTemp(exe))
      modifies dir
      ensures (old(dir.faulty) ==> dir.faulty) && (old(dir.stuck) ==> dir.stuck)
      ensures var content := old(dir.files[download].content);
        var (published, a) := (checksum.Some? && Published(checksum.value) == Some(digest(content)), unpack(content));
        && (temp.Some? ==> published)
        && (ok ==> published && IsRelease(a))
        && (ok ==> Moved(old(dir.files), old(dir.history), dir.files, dir.history, temp, exe, Staged(a)))
        && (!ok ==> OnlyTemp(old(dir.files), old(dir.history), dir.files, dir.history, temp, STAGED))
        && (!ok && !dir.stuck ==> dir.files == old(dir.files))
        && (!ok && !dir.faulty ==> !published || !IsRelease(a))
    {
      hide Published, Cut;
      temp := None;
      if checksum.None? {
        return false, temp;
      }
      var want := Published(checksum.value);
      if want.None? {
        return false, temp;
      }
      ok := dir.Attempt();
      if !ok || digest(dir.files[download].content) != want.value {
        return false, temp;
      }
      var staged;
      staged, temp := ExtractBinary(download);
      if staged.None? {
        return false, temp;
      }
      ghost var (f, h, f1, h1) := (old(dir.files), old(dir.history), dir.files, dir.history);
      assert staged.value !in f && staged.value != exe;
      ok := dir.Rename(staged.value, exe);
      if ok {
        Renamed(f, h, f1, h1, dir.files, dir.history, staged.value, exe, f1[staged.value]);
        return;
      }
      hide OnlyTemp, Touches, Moved;
      dir.Remove(staged.value);
      Continues(f, h, f1, h1, dir.files, dir.history, staged.value, STAGED);
      Ends(f, dir.files, staged.value, f1[staged.value]);
    }

    /**
     * Downloads, verifies and moves a release over the binary `exe`. Wherever it is killed, the directory is sane;
     * unless a removal fails, a refusal leaves it as it was and a success changes nothing but the binary; and
     * unless some step fails by itself, it succeeds exactly when there is a payload.
     */
    method Install(exe: string, tarball: Option<Download>, checksum: Option<string>) returns (ok: bool)
      requires exe in dir.files || !IsTemp(exe)
      modifies dir
      ensures (old(dir.faulty) ==> dir.faulty) && (old(dir.stuck) ==> dir.stuck)
      ensures AllSane(old(dir.files), exe, Payload(tarball, checksum), Verified(tarball, checksum), old(dir.history),
        dir.history)
      ensures Sane(old(dir.files), exe, Payload(tarball, checksum), Verified(tarball, checksum), dir.files)
      ensures ok ==> Payload(tarball, checksum).Some? && At(dir.files, exe) == Payload(tarball, checksum)
      ensures !ok ==> At(dir.files, exe) == At(old(dir.files), exe)
      ensures !dir.stuck ==>
        dir.files == if ok then old(dir.files)[exe := Payload(tarball, checksum).value] else old(dir.files)
      ensures !dir.faulty ==> (ok <==> Payload(tarball, checksum).Some?)
    {
      ghost var (was, h0) := (dir.files, dir.history);
      ghost var (payload, verified) := (Payload(tarball, checksum), Verified(tarball, checksum));
      ghost var (f, h) := (was, h0);
      ghost var temp;
      assert Sane(was, exe, payload, verified, was) && AllSane(was, exe, payload, verified, h0, h0);
      hide Sane, AllSane, OnlyTemp, Touches, At, IsTemp;
      ok, temp := CheckWritable();
      TempSane(was, exe, payload, verified, h0, f, h, dir.files, dir.history, temp, PROBE);
      if !ok {
        return;
      }
      f, h := dir.files, dir.history;
      ghost var f0 := f;
      var download;
      download, temp := DownloadTemp(tarball);
      TempSane(was, exe, payload, verified, h0, f, h, dir.files, dir.history, temp, DOWNLOAD);
      if download.None? {
        return false;
      }
      var d := download.value;
      assert verified <==> checksum.Some? && Published(checksum.value) == Some(digest(dir.files[d].content));
      ghost var a := unpack(dir.files[d].content);
      assert IsRelease(a) && verified ==> payload == Some(Staged(a));
      hide Verified, Payload, Published, Cut, IsRelease;
      f, h := dir.files, dir.history;
      ghost var f1 := f;
      ok, temp := Replace(exe, d, checksum);
      if ok {
        MovedSane(was, exe, payload, verified, h0, f, h, dir.files, dir.history, temp);
      } else {
        TempSane(was, exe, payload, verified, h0, f, h, dir.files, dir.history, temp, STAGED);
      }
      f, h := dir.files, dir.history;
      dir.Remove(d);
      TouchSane(was, exe, payload, verified, h0, f, h, dir.history, d);
      OneSane(was, exe, payload, verified, f, dir.files, d);
      if ok {
        Succeeded(f0, f1, f, dir.files, d, f1[d], exe, payload.value);
      } else {
        Declined(f0, f1, f, dir.files, d, f1[d], exe);
      }
    }
  }

  predicate IsTemp(name: string) {
    PROBE <= name || DOWNLOAD <= name || STAGED <= name
  }

  /**
   * A state an update may leave behind when it is killed: the binary is the old one or the payload, no other file
   * has changed, and what is new is temporary, staged only if what was downloaded is what was published.
   */
  ghost predicate Sane(was: State, exe: string, payload: Option<File>, verified: bool, s: State) {
    && (At(s, exe) == At(was, exe) || (payload.Some? && At(s, exe) == payload))
    && (forall n :: n in was && n != exe ==> At(s, n) == At(was, n))
    && (forall n :: n in s && n !in was && n != exe ==> PROBE <= n || DOWNLOAD <= n || (verified && STAGED <= n))
  }

  ghost predicate AllSane(was: State, exe: string, payload: Option<File>, verified: bool, h0: seq<State>,
      h: seq<State>) {
    h0 <= h && forall k :: |h0| <= k < |h| ==> Sane(was, exe, payload, verified, h[k])
  }

  lemma OneSane(was: State, exe: string, payload: Option<File>, verified: bool, f: State, s: State, n: string)
    requires Sane(was, exe, payload, verified, f)
    requires n != exe && n !in was && (PROBE <= n || DOWNLOAD <= n || (verified && STAGED <= n))
    requires s - {n} == f - {n}
    ensures Sane(was, exe, payload, verified, s)
  {
    forall m | m != n
      ensures At(s, m) == At(f, m)
    {
      Apart(s, f, n, m);
    }
    assert forall m :: m in s && m != n ==> At(f, m).Some?;
  }

  /** After a success: the binary is the payload, and without the download nothing else has changed. */
  lemma Succeeded(was: State, f1: State, f2: State, f3: State, d: string, x: File, exe: string, file: File)
    requires d != exe && d !in was && f1 == was[d := x]
    requires f2 == f1[exe := file] && f3 - {d} == f2 - {d}
    ensures At(f3, exe) == Some(file)
    ensures d !in f3 ==> f3 == was[exe := file]
  {
    Apart(f3, f2, d, exe);
    assert f2 - {d} == was[exe := file];
    assert d !in f3 ==> f3 - {d} == f3;
  }

  /** After a refusal: the binary is the old one, and without what could not be removed nothing has changed. */
  lemma Declined(was: State, f1: State, f2: State, f3: State, d: string, x: File, exe: string)
    requires d != exe && d !in was && f1 == was[d := x]
    requires At(f2, exe) == At(f1, exe)
    requires f3 - {d} == f2 - {d}
    ensures At(f3, exe) == At(was, exe)
    ensures d !in f3 && f2 == f1 ==> f3 == was
  {
    Apart(f3, f2, d, exe);
    assert f1 - {d} == was;
    assert d !in f3 ==> f3 - {d} == f3;
  }

  lemma TempSane(was: State, exe: string, payload: Option<File>, verified: bool, h0: seq<State>,
      f: State, h: seq<State>, f': State, h': seq<State>, temp: Option<string>, prefix: string)
    requires exe in was || !IsTemp(exe)
    requires AllSane(was, exe, payload, verified, h0, h) && Sane(was, exe, payload, verified, f)
    requires OnlyTemp(f, h, f', h', temp, prefix)
    requires prefix == PROBE || prefix == DOWNLOAD || (prefix == STAGED && (temp.Some? ==> verified))
    ensures AllSane(was, exe, payload, verified, h0, h') && Sane(was, exe, payload, verified, f')
    ensures At(f', exe) == At(f, exe) && (f' == f || temp.Some?)
    ensures temp.Some? ==> temp.value !in was && temp.value !in f && temp.value != exe && prefix <= temp.value
    ensures temp.Some? ==> f' - {temp.value} == f - {temp.value}
  {
    if temp.Some? {
      var n := temp.value;
      assert n != exe && n !in was;
      Apart(f', f, n, exe);
      TouchSane(was, exe, payload, verified, h0, f, h, h', n);
      assert f - {n} == f;
      OneSane(was, exe, payload, verified, f, f', n);
    }
  }

  lemma TouchSane(was: State, exe: string, payload: Option<File>, verified: bool, h0: seq<State>,
      f: State, h: seq<State>, h': seq<State>, n: string)
    requires AllSane(was, exe, payload, verified, h0, h) && Sane(was, exe, payload, verified, f)
    requires n != exe && n !in was && (PROBE <= n || DOWNLOAD <= n || (verified && STAGED <= n))
    requires Touches(h, h', f, n)
    ensures AllSane(was, exe, payload, verified, h0, h')
  {
    forall k | |h0| <= k < |h'|
      ensures Sane(was, exe, payload, verified, h'[k])
    {
      if k < |h| {
        assert h'[k] == h[k];
      } else {
        hide Sane;
        OneSane(was, exe, payload, verified, f, h'[k], n);
      }
    }
  }

  lemma MovedSane(was: State, exe: string, payload: Option<File>, verified: bool, h0: seq<State>,
      f: State, h: seq<State>, f': State, h': seq<State>, temp: Option<string>)
    requires exe in was || !IsTemp(exe)
    requires AllSane(was, exe, payload, verified, h0, h) && Sane(was, exe, payload, verified, f)
    requires payload.Some? && verified && Moved(f, h, f', h', temp, exe, payload.value)
    ensures AllSane(was, exe, payload, verified, h0, h') && Sane(was, exe, payload, verified, f')
    ensures f' == f[exe := payload.value]
  {
    TouchSane(was, exe, payload, verified, h0, f, h, h'[..|h'| - 1], temp.value);
    assert forall k :: 0 <= k < |h'| - 1 ==> h'[k] == h'[..|h'| - 1][k];
  }

  /**
   * What a sane state means. Unless the digests match, the binary is the old one and nothing new is staged. If they
   * do, the binary is the old one or the payload, whole exactly when the archive's entry fits the limit: a larger
   * one is silently cut.
   */
  lemma KilledAnywhere(u: Updater, was: State, exe: string, tarball: Option<Download>, checksum: Option<string>,
      s: State)
    requires exe in was && Sane(was, exe, u.Payload(tarball, checksum), u.Verified(tarball, checksum), s)
    ensures exe in s
    ensures !u.Verified(tarball, checksum) ==> s[exe] == was[exe] && forall n :: n in s && STAGED <= n ==> n in was
    ensures u.Payload(tarball, checksum).None? ==> s[exe] == was[exe]
    ensures u.Payload(tarball, checksum).Some? ==>
      var entry := u.unpack(Cut(tarball.value.content)).entries[0].data.content;
      && (s[exe] == was[exe] || (s[exe].executable && s[exe].content <= entry))
      && (u.Payload(tarball, checksum).value.content == entry <==> |entry| <= MAX_BINARY_BYTES)
  {
    assert STAGED[10] != PROBE[10] && STAGED[10] != DOWNLOAD[10];
    assert forall n :: STAGED <= n ==> n[10] == STAGED[10] && !(PROBE <= n) && !(DOWNLOAD <= n);
  }
}
