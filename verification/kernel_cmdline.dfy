/**
 * The kernel command-line reader of go-luks-suspend
 * (getLUKSParamsFromKernelCmdline): it finds the root crypt device's mapper
 * name and the location of its keyfile among the boot parameters.
 *
 * Grammar, over whitespace-separated tokens:
 *   cryptdevice=<descriptor>:<name>[:<options>]   the last one wins
 *   cryptkey=<label-or-uuid>:<path>               a key file on a filesystem
 *   cryptkey=<device>:<offset>:<size>             a key embedded in a raw device
 * Without a cryptkey token the keyfile is /crypto_keyfile.bin; without a
 * cryptdevice token the result is the "no root cryptdevice" error.
 */
module KernelCmdline {
  import opened Wrappers

  const Uint64Limit: nat := 0x1_0000_0000_0000_0000
  /** Go's uint64. */
  type Uint64 = n: nat | n < Uint64Limit

  /** Where the unlock secret lives; offset and size are zero for a plain key file. */
  datatype Keyfile = Keyfile(path: string, offset: Uint64, size: Uint64)

  const DefaultKeyfilePath: string := "/crypto_keyfile.bin"
  const DefaultKeyfile: Keyfile := Keyfile(DefaultKeyfilePath, 0, 0)
  /** Go's zero value keyfile{}, returned alongside every error. */
  const NoKeyfile: Keyfile := Keyfile("", 0, 0)

  datatype ParamError =
    | NoRootCryptdevice        // errors.New("no root cryptdevice")
    | Malformed(token: string) // a cryptdevice= or cryptkey= token whose value does not parse

  /** The (name, key, err) triple the Go function returns. */
  datatype LuksParams = LuksParams(name: string, key: Keyfile, err: Option<ParamError>)

  /** Two keyfiles are the same exactly when path, offset and size all agree. */
  lemma KeyfileEquality(a: Keyfile, b: Keyfile)
    ensures a == b <==> a.path == b.path && a.offset == b.offset && a.size == b.size
  {
  }

  // ---------------------------------------------------------------------
  // Whitespace tokenisation

  predicate IsSpace(c: char)
  {
    c == ' ' || c == '\t' || c == '\n' || c == '\r' || c == '\U{B}' || c == '\U{C}'
  }

  /** A token: non-empty and free of whitespace. */
  predicate IsWord(t: string)
  {
    t != [] && forall i :: 0 <= i < |t| ==> !IsSpace(t[i])
  }

  /** The characters of `s` that are not whitespace, in order. */
  function NonSpace(s: string): string
  {
    if s == [] then [] else (if IsSpace(s[0]) then [] else [s[0]]) + NonSpace(s[1..])
  }

  function Concat(ts: seq<string>): string
  {
    if ts == [] then [] else ts[0] + Concat(ts[1..])
  }

  lemma {:induction false} NonSpaceAppend(a: string, b: string)
    ensures NonSpace(a + b) == NonSpace(a) + NonSpace(b)
  {
    if a != [] {
      assert (a + b)[1..] == a[1..] + b;
      NonSpaceAppend(a[1..], b);
    } else {
      assert a + b == b;
    }
  }

  lemma {:induction false} NonSpaceOfWord(w: string)
    requires forall i :: 0 <= i < |w| ==> !IsSpace(w[i])
    ensures NonSpace(w) == w
  {
    if w != [] {
      NonSpaceOfWord(w[1..]);
    }
  }

  /** Length of the whitespace-free prefix of `s`. */
  function WordLength(s: string): (n: nat)
    ensures n <= |s|
    ensures forall i :: 0 <= i < n ==> !IsSpace(s[i])
    ensures n < |s| ==> IsSpace(s[n])
  {
    if s == [] || IsSpace(s[0]) then 0 else 1 + WordLength(s[1..])
  }

  /**
   * Splits the command line into its whitespace-separated tokens: every token
   * is a non-empty run of non-whitespace characters, and together, in order,
   * they hold exactly the non-whitespace characters of the line.
   */
  function Tokens(s: string): (ts: seq<string>)
    ensures forall i :: 0 <= i < |ts| ==> IsWord(ts[i])
    ensures Concat(ts) == NonSpace(s)
    decreases |s|
  {
    if s == [] then []
    else if IsSpace(s[0]) then Tokens(s[1..])
    else
      var n := WordLength(s);
      assert s == s[..n] + s[n..];
      NonSpaceAppend(s[..n], s[n..]);
      NonSpaceOfWord(s[..n]);
      var ts := [s[..n]] + Tokens(s[n..]);
      assert ts[1..] == Tokens(s[n..]);
      ts
  }

  /** Whatever follows a space does not lengthen the word before it. */
  lemma {:induction false} WordLengthBeforeSpace(a: string, r: string)
    requires r != [] && IsSpace(r[0])
    ensures WordLength(a + r) == WordLength(a)
  {
    if a == [] {
      assert a + r == r;
    } else if !IsSpace(a[0]) {
      assert (a + r)[1..] == a[1..] + r;
      WordLengthBeforeSpace(a[1..], r);
    }
  }

  /**
   * A whitespace character always separates tokens: no token spans it. With
   * TokensOfJoin on a single word, this pins Tokens down to the maximal
   * whitespace-free runs of the line, as strings.Fields returns them.
   */
  lemma {:induction false} TokensSplitAtSpace(a: string, c: char, b: string)
    requires IsSpace(c)
    ensures Tokens(a + [c] + b) == Tokens(a) + Tokens(b)
    decreases |a|
  {
    var s := a + [c] + b;
    if a == [] {
      assert s[1..] == b;
    } else if IsSpace(a[0]) {
      assert s[1..] == a[1..] + [c] + b;
      TokensSplitAtSpace(a[1..], c, b);
    } else {
      var n := WordLength(a);
      assert s == a + ([c] + b);
      WordLengthBeforeSpace(a, [c] + b);
      assert s[..n] == a[..n];
      if n == |a| {
        assert s[n..] == [c] + b;
        assert ([c] + b)[1..] == b;
        assert a[n..] == [];
      } else {
        assert s[n..] == a[n..] + [c] + b;
        TokensSplitAtSpace(a[n..], c, b);
      }
    }
  }

  /** Trailing whitespace, such as the final newline of /proc/cmdline, adds no token. */
  lemma TokensTrailingSpace(s: string, c: char)
    requires IsSpace(c)
    ensures Tokens(s + [c]) == Tokens(s)
  {
    TokensSplitAtSpace(s, c, []);
    assert s + [c] + [] == s + [c];
  }

  lemma {:induction false} WordLengthOfWord(w: string, rest: string)
    requires forall i :: 0 <= i < |w| ==> !IsSpace(w[i])
    requires rest == [] || IsSpace(rest[0])
    ensures WordLength(w + rest) == |w|
  {
    if w != [] {
      assert (w + rest)[1..] == w[1..] + rest;
      WordLengthOfWord(w[1..], rest);
    }
  }

  /** Tokenising words joined by single spaces gives the words back. */
  lemma {:induction false} TokensOfJoin(ws: seq<string>)
    requires |ws| >= 1 && forall i :: 0 <= i < |ws| ==> IsWord(ws[i])
    ensures Tokens(Join(ws, ' ')) == ws
  {
    var w := ws[0];
    if |ws| == 1 {
      WordLengthOfWord(w, []);
      assert w + [] == w;
      assert w[|w|..] == [];
    } else {
      var rest := Join(ws[1..], ' ');
      var s := w + [' '] + rest;
      assert s == w + ([' '] + rest);
      WordLengthOfWord(w, [' '] + rest);
      assert s[..|w|] == w;
      assert s[|w|..] == [' '] + rest;
      assert Tokens([' '] + rest) == Tokens(rest) by { assert ([' '] + rest)[1..] == rest; }
      TokensOfJoin(ws[1..]);
    }
  }

  // ---------------------------------------------------------------------
  // Field splitting

  /** strings.Split(s, sep): the maximal sep-free pieces of s, at least one. */
  function Split(s: string, sep: char): (fs: seq<string>)
    ensures |fs| >= 1
    ensures forall i :: 0 <= i < |fs| ==> sep !in fs[i]
  {
    if s == [] then [""]
    else
      var rest := Split(s[1..], sep);
      if s[0] == sep then [""] + rest
      else [[s[0]] + rest[0]] + rest[1..]
  }

  /** strings.Join(fs, sep), the inverse of Split. */
  function Join(fs: seq<string>, sep: char): string
    requires |fs| >= 1
  {
    if |fs| == 1 then fs[0] else fs[0] + [sep] + Join(fs[1..], sep)
  }

  /** Splitting loses nothing: joining the fields back gives the original text. */
  lemma {:induction false} JoinSplit(s: string, sep: char)
    ensures Join(Split(s, sep), sep) == s
  {
    if s != [] {
      var rest := Split(s[1..], sep);
      JoinSplit(s[1..], sep);
      if s[0] == sep {
        assert ([""] + rest)[1..] == rest;
      } else {
        var fs := [[s[0]] + rest[0]] + rest[1..];
        if |rest| == 1 {
          assert fs == [[s[0]] + rest[0]];
        } else {
          assert fs[1..] == rest[1..];
          assert Join(rest, sep) == rest[0] + [sep] + Join(rest[1..], sep);
        }
      }
    }
  }

  /** And splitting a join of sep-free fields gives those fields back. */
  lemma {:induction false} SplitJoin(fs: seq<string>, sep: char)
    requires |fs| >= 1
    requires forall i :: 0 <= i < |fs| ==> sep !in fs[i]
    ensures Split(Join(fs, sep), sep) == fs
    decreases |Join(fs, sep)|
  {
    if fs[0] == [] {
      if |fs| > 1 {
        var tail := Join(fs[1..], sep);
        assert Join(fs, sep) == [sep] + tail;
        assert ([sep] + tail)[1..] == tail;
        SplitJoin(fs[1..], sep);
      }
    } else {
      var s := Join(fs, sep);
      var g := [fs[0][1..]] + fs[1..];
      assert g[1..] == fs[1..];
      assert fs[0] == [fs[0][0]] + fs[0][1..];
      assert fs[0][0] in fs[0];
      if |fs| == 1 {
        assert s[1..] == Join(g, sep);
      } else {
        assert s == fs[0] + [sep] + Join(fs[1..], sep);
        assert s[1..] == fs[0][1..] + [sep] + Join(fs[1..], sep);
        assert s[1..] == Join(g, sep);
      }
      forall i | 0 <= i < |g| ensures sep !in g[i] {
        if i == 0 {
          assert forall x :: x in fs[0][1..] ==> x in fs[0];
        }
      }
      SplitJoin(g, sep);
    }
  }

  /** The text before and after the first `sep`, if there is one (strings.Cut). */
  function Cut(s: string, sep: char): (r: Option<(string, string)>)
    ensures r.None? <==> sep !in s
    ensures r.Some? ==> sep !in r.value.0 && r.value.0 + [sep] + r.value.1 == s
  {
    if s == [] then None
    else if s[0] == sep then Some(([], s[1..]))
    else match Cut(s[1..], sep)
      case None => None
      case Some(kv) => Some(([s[0]] + kv.0, kv.1))
  }

  /** Cutting at the first separator of a separator-free key gives key and value back. */
  lemma {:induction false} CutAtFirst(k: string, v: string, sep: char)
    requires sep !in k
    ensures Cut(k + [sep] + v, sep) == Some((k, v))
  {
    if k != [] {
      var s := k + [sep] + v;
      assert s[0] == k[0] && k[0] != sep by { assert k[0] in k; }
      assert s[1..] == k[1..] + [sep] + v;
      CutAtFirst(k[1..], v, sep);
      assert [k[0]] + k[1..] == k;
    } else {
      assert k + [sep] + v == [sep] + v;
    }
  }

  // ---------------------------------------------------------------------
  // Unsigned decimal numbers

  predicate IsDigit(c: char)
  {
    '0' <= c <= '9'
  }

  predicate AllDigits(s: string)
  {
    forall i :: 0 <= i < |s| ==> IsDigit(s[i])
  }

  /** The value of a string of decimal digits, most significant first. */
  function Decimal(s: string): nat
    requires AllDigits(s)
  {
    if s == [] then 0 else 10 * Decimal(s[..|s| - 1]) + (s[|s| - 1] as int - '0' as int)
  }

  /** strconv.ParseUint(s, 10, 64): digits only, at least one, and within 64 bits. */
  function ParseUint64(s: string): Option<Uint64>
  {
    if s != [] && AllDigits(s) && Decimal(s) < Uint64Limit then Some(Decimal(s)) else None
  }

  /** The decimal rendering of n, the inverse of ParseUint64. */
  function FormatDecimal(n: nat): (s: string)
    ensures s != [] && AllDigits(s)
  {
    var d := ['0' + ((n % 10) as char)];
    if n < 10 then d else FormatDecimal(n / 10) + d
  }

  /** Every 64-bit value survives rendering and reading back. */
  lemma {:induction false} ParseFormat(n: Uint64)
    ensures ParseUint64(FormatDecimal(n)) == Some(n)
  {
    DecimalFormat(n);
  }

  lemma {:induction false} DecimalFormat(n: nat)
    ensures Decimal(FormatDecimal(n)) == n
  {
    var s := FormatDecimal(n);
    if n >= 10 {
      assert s[..|s| - 1] == FormatDecimal(n / 10);
      DecimalFormat(n / 10);
    } else {
      assert s[..|s| - 1] == [];
    }
  }

  // ---------------------------------------------------------------------
  // Reading one boot parameter

  /** What a token means to the reader. */
  datatype Param =
    | Device(name: string)  // a well-formed cryptdevice= token
    | Key(key: Keyfile)     // a well-formed cryptkey= token
    | Unrelated             // any other token, including ones without '='
    | Bad                   // a cryptdevice= or cryptkey= token that does not parse

  /** The value of a cryptkey= token, in either of its two forms. */
  function CryptkeyValue(v: string): (r: Option<Keyfile>)
    ensures |Split(v, ':')| < 2 || |Split(v, ':')| > 3 ==> r.None?
    ensures r.Some? ==> r.value.path in Split(v, ':') && ':' !in r.value.path
    ensures r.Some? && (r.value.offset != 0 || r.value.size != 0) ==> |Split(v, ':')| == 3
  {
    var fs := Split(v, ':');
    if |fs| == 2 then Some(Keyfile(fs[1], 0, 0))
    else if |fs| == 3 then
      match (ParseUint64(fs[1]), ParseUint64(fs[2]))
      case (Some(offset), Some(size)) => Some(Keyfile(fs[0], offset, size))
      case _ => None
    else None
  }

  /** The two cryptkey forms: label:path names a key file, device:offset:size an embedded key. */
  lemma CryptkeyForms(fsLabel: string, path: string, dev: string, offset: Uint64, size: Uint64)
    requires ':' !in fsLabel && ':' !in path && ':' !in dev
    ensures CryptkeyValue(fsLabel + ":" + path) == Some(Keyfile(path, 0, 0))
    ensures CryptkeyValue(dev + ":" + FormatDecimal(offset) + ":" + FormatDecimal(size))
              == Some(Keyfile(dev, offset, size))
  {
    SplitJoin([fsLabel, path], ':');
    assert Join([fsLabel, path], ':') == fsLabel + ":" + path;
    var o, z := FormatDecimal(offset), FormatDecimal(size);
    assert ':' !in o && ':' !in z;
    SplitJoin([dev, o, z], ':');
    assert [dev, o, z][1..] == [o, z] && [o, z][1..] == [z];
    assert Join([o, z], ':') == o + ":" + z;
    assert Join([dev, o, z], ':') == dev + ":" + o + ":" + z;
    ParseFormat(offset);
    ParseFormat(size);
  }

  /**
   * The meaning of one token, from the key before its first '='. Only
   * cryptdevice= and cryptkey= tokens matter; a device name and a key path are
   * single ':'-free fields.
   */
  function Interpret(t: string): (p: Param)
    ensures p.Unrelated? <==>
              Cut(t, '=').None? || (Cut(t, '=').value.0 != "cryptdevice" && Cut(t, '=').value.0 != "cryptkey")
    ensures p.Device? ==> Cut(t, '=').Some? && Cut(t, '=').value.0 == "cryptdevice" && p.name != "" && ':' !in p.name
    ensures p.Key? ==> Cut(t, '=').Some? && Cut(t, '=').value.0 == "cryptkey" && ':' !in p.key.path
  {
    match Cut(t, '=')
    case None => Unrelated
    case Some(kv) =>
      if kv.0 == "cryptdevice" then
        var fs := Split(kv.1, ':');
        if |fs| >= 2 && fs[1] != "" then Device(fs[1]) else Bad
      else if kv.0 == "cryptkey" then
        match CryptkeyValue(kv.1)
        case Some(k) => Key(k)
        case None => Bad
      else Unrelated
  }

  function DeviceOf(t: string): (r: Option<string>)
    ensures r.Some? ==> r.value != ""
  {
    if Interpret(t).Device? then Some(Interpret(t).name) else None
  }

  function KeyOf(t: string): Option<Keyfile>
  {
    if Interpret(t).Key? then Some(Interpret(t).key) else None
  }

  // ---------------------------------------------------------------------
  // Reading the whole line

  /** What the left-to-right scan has seen so far. */
  datatype Scan = Scan(name: Option<string>, key: Keyfile)

  datatype ScanOutcome = Scanned(state: Scan) | Rejected(token: string)

  /** Reads the tokens in order; each device or key token overrides the previous one. */
  function ScanTokens(ts: seq<string>, st: Scan): (r: ScanOutcome)
    ensures r.Rejected? <==> exists i :: 0 <= i < |ts| && IsBad(ts[i])
    ensures r.Rejected? ==> r.token in ts && IsBad(r.token)
  {
    if ts == [] then Scanned(st)
    else match Interpret(ts[0])
      case Bad => Rejected(ts[0])
      case Device(n) => ScanTokens(ts[1..], st.(name := Some(n)))
      case Key(k) => ScanTokens(ts[1..], st.(key := k))
      case Unrelated => ScanTokens(ts[1..], st)
  }

  /** getLUKSParamsFromKernelCmdline, on the text of the command line. */
  function Parse(cmdline: string): (p: LuksParams)
    ensures p.err.Some? ==> p.name == "" && p.key == NoKeyfile
    ensures p.err.None? ==> p.name != ""
  {
    match ScanTokens(Tokens(cmdline), Scan(None, DefaultKeyfile))
    case Rejected(t) => LuksParams("", NoKeyfile, Some(Malformed(t)))
    case Scanned(st) =>
      if st.name.None? || st.name.value == "" then LuksParams("", NoKeyfile, Some(NoRootCryptdevice))
      else LuksParams(st.name.value, st.key, None)
  }

  // ---------------------------------------------------------------------
  // What the scan computes, stated without the scan

  /**
   * The payload of the last token that `f` recognises: a later boot parameter
   * overrides an earlier one.
   */
  function Last<T>(ts: seq<string>, f: string -> Option<T>): (r: Option<T>)
    ensures r.None? <==> forall i :: 0 <= i < |ts| ==> f(ts[i]).None?
    ensures r.Some? ==> exists i :: 0 <= i < |ts| && f(ts[i]) == r
                                    && forall j :: i < j < |ts| ==> f(ts[j]).None?
  {
    if ts == [] then None
    else if f(ts[|ts| - 1]).Some? then
      assert f(ts[|ts| - 1]) == f(ts[|ts| - 1]);
      f(ts[|ts| - 1])
    else
      var r := Last(ts[..|ts| - 1], f);
      assert forall i :: 0 <= i < |ts| - 1 ==> ts[..|ts| - 1][i] == ts[i];
      r
  }

  lemma {:induction false} LastFront<T>(ts: seq<string>, f: string -> Option<T>)
    requires ts != []
    ensures Last(ts, f) == if Last(ts[1..], f).Some? then Last(ts[1..], f) else f(ts[0])
    decreases |ts|
  {
    var n := |ts|;
    var tail := ts[1..];
    if n == 1 {
      assert tail == [] && ts[..0] == [];
    } else {
      assert tail[|tail| - 1] == ts[n - 1];
      if f(ts[n - 1]).None? {
        var init := ts[..n - 1];
        LastFront(init, f);
        assert init[0] == ts[0];
        assert init[1..] == tail[..|tail| - 1];
      }
    }
  }

  predicate IsBad(t: string)
  {
    Interpret(t).Bad?
  }

  /** One well-formed token updates the device name, the key, or neither. */
  lemma ScanStep(ts: seq<string>, st: Scan)
    requires ts != [] && !IsBad(ts[0])
    ensures ScanTokens(ts, st) == ScanTokens(ts[1..], Scan(
              if DeviceOf(ts[0]).Some? then DeviceOf(ts[0]) else st.name,
              if KeyOf(ts[0]).Some? then KeyOf(ts[0]).value else st.key))
  {
  }

  /** Without malformed tokens, the scan ends with the last device and the last key it met. */
  lemma {:induction false} ScanFindsLast(ts: seq<string>, st: Scan)
    requires forall i :: 0 <= i < |ts| ==> !IsBad(ts[i])
    ensures ScanTokens(ts, st) == Scanned(Scan(
              if Last(ts, DeviceOf).Some? then Last(ts, DeviceOf) else st.name,
              if Last(ts, KeyOf).Some? then Last(ts, KeyOf).value else st.key))
  {
    if ts != [] {
      var d, k := DeviceOf(ts[0]), KeyOf(ts[0]);
      var next := Scan(if d.Some? then d else st.name, if k.Some? then k.value else st.key);
      ScanStep(ts, st);
      assert forall i :: 0 <= i < |ts[1..]| ==> !IsBad(ts[1..][i]) by {
        assert forall i :: 0 <= i < |ts[1..]| ==> ts[1..][i] == ts[i + 1];
      }
      ScanFindsLast(ts[1..], next);
      LastFront(ts, DeviceOf);
      LastFront(ts, KeyOf);
    }
  }

  /** The scan stops at the first malformed token and reports it. */
  lemma {:induction false} ScanStopsAtFirstBad(ts: seq<string>, st: Scan, k: nat)
    requires k < |ts| && IsBad(ts[k])
    requires forall j :: 0 <= j < k ==> !IsBad(ts[j])
    ensures ScanTokens(ts, st) == Rejected(ts[k])
  {
    if k > 0 {
      assert !IsBad(ts[0]);
      match Interpret(ts[0])
      case Device(n) => ScanStopsAtFirstBad(ts[1..], st.(name := Some(n)), k - 1);
      case Key(k') => ScanStopsAtFirstBad(ts[1..], st.(key := k'), k - 1);
      case Unrelated => ScanStopsAtFirstBad(ts[1..], st, k - 1);
    }
  }

  /** Without any device token the scan never sets a device name. */
  lemma {:induction false} ScanKeepsName(ts: seq<string>, st: Scan)
    requires forall i :: 0 <= i < |ts| ==> DeviceOf(ts[i]).None?
    ensures ScanTokens(ts, st).Scanned? ==> ScanTokens(ts, st).state.name == st.name
  {
    if ts != [] {
      assert DeviceOf(ts[0]).None?;
      match Interpret(ts[0])
      case Bad =>
      case Key(k) => ScanKeepsName(ts[1..], st.(key := k));
      case Unrelated => ScanKeepsName(ts[1..], st);
    }
  }

  /** The tokens the reader acts on: those naming a device or a key, well-formed or not. */
  function Relevant(ts: seq<string>): (rs: seq<string>)
    ensures forall i :: 0 <= i < |rs| ==> !Interpret(rs[i]).Unrelated?
    ensures |rs| <= |ts|
  {
    if ts == [] then []
    else if Interpret(ts[0]).Unrelated? then Relevant(ts[1..])
    else [ts[0]] + Relevant(ts[1..])
  }

  lemma {:induction false} ScanIgnoresUnrelated(ts: seq<string>, st: Scan)
    ensures ScanTokens(ts, st) == ScanTokens(Relevant(ts), st)
  {
    if ts != [] {
      match Interpret(ts[0])
      case Bad =>
      case Device(n) =>
        ScanIgnoresUnrelated(ts[1..], st.(name := Some(n)));
        assert ([ts[0]] + Relevant(ts[1..]))[1..] == Relevant(ts[1..]);
      case Key(k) =>
        ScanIgnoresUnrelated(ts[1..], st.(key := k));
        assert ([ts[0]] + Relevant(ts[1..]))[1..] == Relevant(ts[1..]);
      case Unrelated => ScanIgnoresUnrelated(ts[1..], st);
    }
  }

  // ---------------------------------------------------------------------
  // The reader's contract

  /**
   * With well-formed parameters and at least one cryptdevice= token, the
   * name is that of the last cryptdevice= token and the keyfile that of the
   * last cryptkey= token, or /crypto_keyfile.bin when there is none.
   */
  lemma LastCryptdeviceWins(cmdline: string)
    requires forall i :: 0 <= i < |Tokens(cmdline)| ==> !IsBad(Tokens(cmdline)[i])
    requires Last(Tokens(cmdline), DeviceOf).Some?
    ensures Parse(cmdline).name == Last(Tokens(cmdline), DeviceOf).value
    ensures Parse(cmdline).key == if Last(Tokens(cmdline), KeyOf).Some?
                                  then Last(Tokens(cmdline), KeyOf).value else DefaultKeyfile
    ensures Parse(cmdline).err == None
  {
    var ts := Tokens(cmdline);
    ScanFindsLast(ts, Scan(None, DefaultKeyfile));
    var i :| 0 <= i < |ts| && DeviceOf(ts[i]) == Last(ts, DeviceOf);
  }

  /** A cryptdevice= or cryptkey= token whose value does not parse makes the whole reading fail. */
  lemma MalformedTokenFails(cmdline: string, k: nat)
    requires k < |Tokens(cmdline)| && IsBad(Tokens(cmdline)[k])
    requires forall j :: 0 <= j < k ==> !IsBad(Tokens(cmdline)[j])
    ensures Parse(cmdline) == LuksParams("", NoKeyfile, Some(Malformed(Tokens(cmdline)[k])))
  {
    ScanStopsAtFirstBad(Tokens(cmdline), Scan(None, DefaultKeyfile), k);
  }

  /** The first token of the form cryptdevice=..., if any; helper for the "no root device" case. */
  predicate IsCryptdeviceToken(t: string)
  {
    Cut(t, '=').Some? && Cut(t, '=').value.0 == "cryptdevice"
  }

  /**
   * Without any cryptdevice= token the reading fails with an empty name and
   * the zero keyfile; when nothing else is malformed the error is "no root
   * cryptdevice".
   */
  lemma NoCryptdeviceFails(cmdline: string)
    requires forall i :: 0 <= i < |Tokens(cmdline)| ==> !IsCryptdeviceToken(Tokens(cmdline)[i])
    ensures Parse(cmdline).err.Some?
    ensures Parse(cmdline).name == "" && Parse(cmdline).key == NoKeyfile
    ensures (forall i :: 0 <= i < |Tokens(cmdline)| ==> !IsBad(Tokens(cmdline)[i]))
              ==> Parse(cmdline).err == Some(NoRootCryptdevice)
  {
    var ts := Tokens(cmdline);
    forall i | 0 <= i < |ts| ensures DeviceOf(ts[i]).None? {
      assert !IsCryptdeviceToken(ts[i]);
    }
    ScanKeepsName(ts, Scan(None, DefaultKeyfile));
    if forall i :: 0 <= i < |ts| ==> !IsBad(ts[i]) {
      ScanFindsLast(ts, Scan(None, DefaultKeyfile));
    }
  }

  /** Tokens other than cryptdevice= and cryptkey= (BOOT_IMAGE=, rw, root=, ...) do not matter. */
  lemma UnrelatedTokensIgnored(a: string, b: string)
    requires Relevant(Tokens(a)) == Relevant(Tokens(b))
    ensures Parse(a) == Parse(b)
  {
    ScanIgnoresUnrelated(Tokens(a), Scan(None, DefaultKeyfile));
    ScanIgnoresUnrelated(Tokens(b), Scan(None, DefaultKeyfile));
  }

  /** A command line reads the same with or without its trailing newline. */
  lemma TrailingNewlineIgnored(cmdline: string)
    ensures Parse(cmdline + "\n") == Parse(cmdline)
  {
    TokensTrailingSpace(cmdline, '\n');
  }
}
