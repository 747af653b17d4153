/**
 * The six cases of TestKernelCmdlineParsing, each proved of the reader.
 * The helpers below take one token apart at a time, so that no proof has to
 * evaluate the reader over a whole command line at once.
 */
module KernelCmdlineTable {
  import opened Wrappers
  import opened KernelCmdline

  /** A line of single-space-separated words with a final newline tokenises to those words. */
  lemma LineTokens(line: string, ws: seq<string>)
    requires |ws| >= 1 && forall i :: 0 <= i < |ws| ==> IsWord(ws[i])
    requires line == Join(ws, ' ') + "\n" || line == Join(ws, ' ')
    ensures Tokens(line) == ws
  {
    TokensOfJoin(ws);
    TokensTrailingSpace(Join(ws, ' '), '\n');
  }

  /** Words glue into words; long literal tokens are checked a piece at a time. */
  lemma WordAppend(a: string, b: string)
    requires IsWord(a) && IsWord(b)
    ensures IsWord(a + b)
  {
    assert forall i :: |a| <= i < |a + b| ==> (a + b)[i] == b[i - |a|];
  }

  lemma KeyValue(t: string, k: string, v: string)
    requires '=' !in k && t == k + "=" + v
    ensures Cut(t, '=') == Some((k, v))
  {
    CutAtFirst(k, v, '=');
  }

  lemma DeviceToken(t: string, desc: string, name: string)
    requires ':' !in desc && ':' !in name && name != ""
    requires t == "cryptdevice=" + desc + ":" + name
    ensures Interpret(t) == Device(name)
  {
    var v := desc + ":" + name;
    KeyValue(t, "cryptdevice", v);
    SplitJoin([desc, name], ':');
    assert Join([desc, name], ':') == v by { assert [desc, name][1..] == [name]; }
  }

  lemma DeviceTokenWithOptions(t: string, desc: string, name: string, opts: string)
    requires ':' !in desc && ':' !in name && ':' !in opts && name != ""
    requires t == "cryptdevice=" + desc + ":" + name + ":" + opts
    ensures Interpret(t) == Device(name)
  {
    var v := desc + ":" + name + ":" + opts;
    KeyValue(t, "cryptdevice", v);
    SplitJoin([desc, name, opts], ':');
    Join3(desc, name, opts, ':');
  }

  lemma KeyFileToken(t: string, fsLabel: string, path: string)
    requires ':' !in fsLabel && ':' !in path
    requires t == "cryptkey=" + fsLabel + ":" + path
    ensures Interpret(t) == Key(Keyfile(path, 0, 0))
  {
    KeyValue(t, "cryptkey", fsLabel + ":" + path);
    CryptkeyForms(fsLabel, path, "", 0, 0);
  }

  lemma EmbeddedKeyToken(t: string, dev: string, offset: Uint64, size: Uint64)
    requires ':' !in dev
    requires t == "cryptkey=" + dev + ":" + FormatDecimal(offset) + ":" + FormatDecimal(size)
    ensures Interpret(t) == Key(Keyfile(dev, offset, size))
  {
    var o, z := FormatDecimal(offset), FormatDecimal(size);
    GroupTail("cryptkey=", dev, ":", o, ":", z);
    assert "cryptkey=" == "cryptkey" + "=";
    KeyValue(t, "cryptkey", dev + ":" + o + ":" + z);
    CryptkeyForms("", "", dev, offset, size);
  }

  lemma UnrelatedToken(t: string, k: string, v: string)
    requires '=' !in k && k != "cryptdevice" && k != "cryptkey"
    requires t == k + "=" + v
    ensures Interpret(t) == Unrelated
  {
    KeyValue(t, k, v);
  }

  lemma Join2(a: string, b: string, sep: char)
    ensures Join([a, b], sep) == a + [sep] + b
  {
    assert [a, b][1..] == [b];
  }

  lemma Join3(a: string, b: string, c: string, sep: char)
    ensures Join([a, b, c], sep) == a + [sep] + b + [sep] + c
  {
    assert [a, b, c][1..] == [b, c];
    Join2(b, c, sep);
  }

  lemma LastOfTwo<T>(t1: string, t2: string, f: string -> Option<T>)
    ensures Last([t1, t2], f) == if f(t2).Some? then f(t2) else f(t1)
  {
    assert [t1, t2][..1] == [t1];
    assert [t1][..0] == [];
  }

  /** Reads a line whose tokens are known and well-formed. */
  lemma ReadLine(line: string, ts: seq<string>, name: string, key: Keyfile)
    requires Tokens(line) == ts
    requires forall i :: 0 <= i < |ts| ==> !IsBad(ts[i])
    requires Last(ts, DeviceOf) == Some(name)
    requires key == if Last(ts, KeyOf).Some? then Last(ts, KeyOf).value else DefaultKeyfile
    ensures Parse(line) == LuksParams(name, key, None)
  {
    LastCryptdeviceWins(line);
  }

  /** Reads a line of two well-formed tokens. */
  lemma ReadTwo(line: string, t1: string, t2: string, name: string, key: Keyfile)
    requires Tokens(line) == [t1, t2] && !IsBad(t1) && !IsBad(t2)
    requires Some(name) == if DeviceOf(t2).Some? then DeviceOf(t2) else DeviceOf(t1)
    requires key == if KeyOf(t2).Some? then KeyOf(t2).value
                    else if KeyOf(t1).Some? then KeyOf(t1).value else DefaultKeyfile
    ensures Parse(line) == LuksParams(name, key, None)
  {
    LastOfTwo(t1, t2, DeviceOf);
    LastOfTwo(t1, t2, KeyOf);
    ReadLine(line, [t1, t2], name, key);
  }

  lemma DeviceWord(desc: string, name: string)
    requires IsWord(desc) && IsWord(name)
    ensures IsWord("cryptdevice=" + desc + ":" + name)
  {
    WordAppend("cryptdevice=", desc);
    WordAppend("cryptdevice=" + desc, ":");
    WordAppend("cryptdevice=" + desc + ":", name);
  }

  lemma PairWord(prefix: string, a: string, sep: string, b: string)
    requires IsWord(prefix) && IsWord(a) && IsWord(sep) && IsWord(b)
    ensures IsWord(prefix + a + sep + b)
  {
    WordAppend(prefix, a);
    WordAppend(prefix + a, sep);
    WordAppend(prefix + a + sep, b);
  }

  lemma TwoTokens(line: string, t1: string, t2: string)
    requires IsWord(t1) && IsWord(t2)
    requires line == t1 + " " + t2 + "\n" || line == t1 + " " + t2
    ensures Tokens(line) == [t1, t2]
  {
    Join2(t1, t2, ' ');
    LineTokens(line, [t1, t2]);
  }

  lemma ThreeTokens(line: string, t1: string, t2: string, t3: string)
    requires IsWord(t1) && IsWord(t2) && IsWord(t3)
    requires line == t1 + " " + t2 + " " + t3 + "\n"
    ensures Tokens(line) == [t1, t2, t3]
  {
    Join3(t1, t2, t3, ' ');
    LineTokens(line, [t1, t2, t3]);
  }

  /** A cryptdevice=<desc>:<name> token is a word naming device <name>. */
  lemma DeviceParam(desc: string, name: string)
    requires IsWord(desc) && IsWord(name) && ':' !in desc && ':' !in name
    ensures IsWord("cryptdevice=" + desc + ":" + name)
    ensures Interpret("cryptdevice=" + desc + ":" + name) == Device(name)
  {
    DeviceWord(desc, name);
    DeviceToken("cryptdevice=" + desc + ":" + name, desc, name);
  }

  lemma UnrelatedParam(k: string, v: string)
    requires IsWord(k) && IsWord(v) && '=' !in k && k != "cryptdevice" && k != "cryptkey"
    ensures IsWord(k + "=" + v) && Interpret(k + "=" + v) == Unrelated
    ensures !IsCryptdeviceToken(k + "=" + v)
  {
    KeyValue(k + "=" + v, k, v);
    WordAppend(k, "=");
    WordAppend(k + "=", v);
    UnrelatedToken(k + "=" + v, k, v);
  }

  // The rows of TestKernelCmdlineParsing. Each command line is written as the
  // concatenation of its tokens and their parts; joined, they give the test's
  // string character for character.

  lemma DeviceOptionsParam(desc: string, name: string, opts: string)
    requires IsWord(desc) && IsWord(name) && IsWord(opts)
    requires ':' !in desc && ':' !in name && ':' !in opts
    ensures IsWord("cryptdevice=" + desc + ":" + name + ":" + opts)
    ensures Interpret("cryptdevice=" + desc + ":" + name + ":" + opts) == Device(name)
  {
    DeviceWord(desc, name);
    PairWord("cryptdevice=" + desc + ":", name, ":", opts);
    DeviceTokenWithOptions("cryptdevice=" + desc + ":" + name + ":" + opts, desc, name, opts);
  }

  lemma KeyFileParam(fsLabel: string, path: string)
    requires IsWord(fsLabel) && IsWord(path) && ':' !in fsLabel && ':' !in path
    ensures IsWord("cryptkey=" + fsLabel + ":" + path)
    ensures Interpret("cryptkey=" + fsLabel + ":" + path) == Key(Keyfile(path, 0, 0))
  {
    PairWord("cryptkey=", fsLabel, ":", path);
    KeyFileToken("cryptkey=" + fsLabel + ":" + path, fsLabel, path);
  }

  lemma DigitsWord(s: string)
    requires s != [] && AllDigits(s)
    ensures IsWord(s) && ':' !in s
  {
    forall i | 0 <= i < |s| ensures !IsSpace(s[i]) && s[i] != ':' {
      assert IsDigit(s[i]);
    }
  }

  lemma EmbeddedKeyParam(dev: string, offset: Uint64, size: Uint64)
    requires IsWord(dev) && ':' !in dev
    ensures IsWord("cryptkey=" + dev + ":" + FormatDecimal(offset) + ":" + FormatDecimal(size))
    ensures Interpret("cryptkey=" + dev + ":" + FormatDecimal(offset) + ":" + FormatDecimal(size))
              == Key(Keyfile(dev, offset, size))
  {
    var o, z := FormatDecimal(offset), FormatDecimal(size);
    DigitsWord(o);
    DigitsWord(z);
    PairWord("cryptkey=", dev, ":", o);
    WordAppend("cryptkey=" + dev + ":" + o, ":");
    WordAppend("cryptkey=" + dev + ":" + o + ":", z);
    EmbeddedKeyToken("cryptkey=" + dev + ":" + o + ":" + z, dev, offset, size);
  }

  lemma FlagParam(f: string)
    requires IsWord(f) && '=' !in f
    ensures Interpret(f) == Unrelated && !IsCryptdeviceToken(f)
  {
  }

  /** Shape of the first row: a device token, then an unrelated key=value token. */
  lemma DeviceThenUnrelated(line: string, desc: string, name: string, k: string, v: string)
    requires IsWord(desc) && IsWord(name) && ':' !in desc && ':' !in name
    requires IsWord(k) && IsWord(v) && '=' !in k && k != "cryptdevice" && k != "cryptkey"
    requires line == "cryptdevice=" + desc + ":" + name + " " + k + "=" + v + "\n"
    ensures Parse(line) == LuksParams(name, DefaultKeyfile, None)
  {
    var t1 := "cryptdevice=" + desc + ":" + name;
    var t2 := k + "=" + v;
    DeviceParam(desc, name);
    UnrelatedParam(k, v);
    Group3(t1 + " ", k, "=", v, "\n");
    TwoTokens(line, t1, t2);
    ReadTwo(line, t1, t2, name, DefaultKeyfile);
  }

  /** Shape of the second row: two device tokens. */
  lemma DeviceThenDevice(line: string, d1: string, n1: string, d2: string, n2: string)
    requires IsWord(d1) && IsWord(n1) && ':' !in d1 && ':' !in n1
    requires IsWord(d2) && IsWord(n2) && ':' !in d2 && ':' !in n2
    requires line == "cryptdevice=" + d1 + ":" + n1 + " " + "cryptdevice=" + d2 + ":" + n2 + "\n"
    ensures Parse(line) == LuksParams(n2, DefaultKeyfile, None)
  {
    var t1 := "cryptdevice=" + d1 + ":" + n1;
    var t2 := "cryptdevice=" + d2 + ":" + n2;
    DeviceParam(d1, n1);
    DeviceParam(d2, n2);
    Group4(t1 + " ", "cryptdevice=", d2, ":", n2, "\n");
    TwoTokens(line, t1, t2);
    ReadTwo(line, t1, t2, n2, DefaultKeyfile);
  }

  /** Shape of the third row: a device token with options, then an unrelated token, no newline. */
  lemma DeviceOptionsThenUnrelated(line: string, desc: string, name: string, opts: string, k: string, v: string)
    requires IsWord(desc) && IsWord(name) && IsWord(opts) && ':' !in desc && ':' !in name && ':' !in opts
    requires IsWord(k) && IsWord(v) && '=' !in k && k != "cryptdevice" && k != "cryptkey"
    requires line == "cryptdevice=" + desc + ":" + name + ":" + opts + " " + k + "=" + v
    ensures Parse(line) == LuksParams(name, DefaultKeyfile, None)
  {
    var t1 := "cryptdevice=" + desc + ":" + name + ":" + opts;
    var t2 := k + "=" + v;
    DeviceOptionsParam(desc, name, opts);
    UnrelatedParam(k, v);
    GroupEnd(t1 + " ", k, "=", v);
    TwoTokens(line, t1, t2);
    ReadTwo(line, t1, t2, name, DefaultKeyfile);
  }

  /** Shape of the fourth row: a device token, then cryptkey=<label>:<path>. */
  lemma DeviceThenKeyFile(line: string, desc: string, name: string, fsLabel: string, path: string)
    requires IsWord(desc) && IsWord(name) && ':' !in desc && ':' !in name
    requires IsWord(fsLabel) && IsWord(path) && ':' !in fsLabel && ':' !in path
    requires line == "cryptdevice=" + desc + ":" + name + " " + "cryptkey=" + fsLabel + ":" + path + "\n"
    ensures Parse(line) == LuksParams(name, Keyfile(path, 0, 0), None)
  {
    var t1 := "cryptdevice=" + desc + ":" + name;
    var t2 := "cryptkey=" + fsLabel + ":" + path;
    DeviceParam(desc, name);
    KeyFileParam(fsLabel, path);
    Group4(t1 + " ", "cryptkey=", fsLabel, ":", path, "\n");
    TwoTokens(line, t1, t2);
    ReadTwo(line, t1, t2, name, Keyfile(path, 0, 0));
  }

  lemma Group3(p: string, a: string, b: string, c: string, q: string)
    ensures p + a + b + c + q == p + (a + b + c) + q
  {
  }

  lemma GroupEnd(p: string, a: string, b: string, c: string)
    ensures p + a + b + c == p + (a + b + c)
  {
  }

  lemma GroupTail(p: string, a: string, b: string, c: string, d: string, e: string)
    ensures p + a + b + c + d + e == p + (a + b + c + d + e)
  {
  }

  lemma Group4(p: string, a: string, b: string, c: string, d: string, q: string)
    ensures p + a + b + c + d + q == p + (a + b + c + d) + q
  {
  }

  lemma Regroup(p: string, dev: string, o: string, z: string)
    ensures p + "cryptkey=" + dev + ":" + o + ":" + z + "\n" == p + ("cryptkey=" + dev + ":" + o + ":" + z) + "\n"
  {
  }

  /** A device token followed by any token that reads as a key. */
  lemma DeviceThenKey(line: string, desc: string, name: string, t2: string, key: Keyfile)
    requires IsWord(desc) && IsWord(name) && ':' !in desc && ':' !in name
    requires IsWord(t2) && Interpret(t2) == Key(key)
    requires line == "cryptdevice=" + desc + ":" + name + " " + t2 + "\n"
    ensures Parse(line) == LuksParams(name, key, None)
  {
    var t1 := "cryptdevice=" + desc + ":" + name;
    DeviceParam(desc, name);
    TwoTokens(line, t1, t2);
    ReadTwo(line, t1, t2, name, key);
  }

  /** Shape of the fifth row: a device token, then cryptkey=<device>:<offset>:<size>. */
  lemma DeviceThenEmbeddedKey(line: string, desc: string, name: string, dev: string, offset: Uint64, size: Uint64)
    requires IsWord(desc) && IsWord(name) && ':' !in desc && ':' !in name
    requires IsWord(dev) && ':' !in dev
    requires line == "cryptdevice=" + desc + ":" + name + " "
                     + "cryptkey=" + dev + ":" + FormatDecimal(offset) + ":" + FormatDecimal(size) + "\n"
    ensures Parse(line) == LuksParams(name, Keyfile(dev, offset, size), None)
  {
    var t2 := "cryptkey=" + dev + ":" + FormatDecimal(offset) + ":" + FormatDecimal(size);
    EmbeddedKeyParam(dev, offset, size);
    Regroup("cryptdevice=" + desc + ":" + name + " ", dev, FormatDecimal(offset), FormatDecimal(size));
    DeviceThenKey(line, desc, name, t2, Keyfile(dev, offset, size));
  }

  /** Shape of the sixth row: key=value, a bare flag, key=value, and no cryptdevice=. */
  lemma NoDeviceLine(line: string, k1: string, v1: string, flag: string, k3: string, v3: string)
    requires IsWord(k1) && IsWord(v1) && '=' !in k1 && k1 != "cryptdevice" && k1 != "cryptkey"
    requires IsWord(flag) && '=' !in flag
    requires IsWord(k3) && IsWord(v3) && '=' !in k3 && k3 != "cryptdevice" && k3 != "cryptkey"
    requires line == k1 + "=" + v1 + " " + flag + " " + k3 + "=" + v3 + "\n"
    ensures Parse(line) == LuksParams("", NoKeyfile, Some(NoRootCryptdevice))
  {
    var t1, t3 := k1 + "=" + v1, k3 + "=" + v3;
    UnrelatedParam(k1, v1);
    FlagParam(flag);
    UnrelatedParam(k3, v3);
    Group3(t1 + " " + flag + " ", k3, "=", v3, "\n");
    ThreeTokens(line, t1, flag, t3);
    var ts := [t1, flag, t3];
    forall i | 0 <= i < 3 ensures !IsCryptdeviceToken(ts[i]) && !IsBad(ts[i]) {
      if i == 0 { assert ts[i] == t1; } else if i == 1 { assert ts[i] == flag; } else { assert ts[i] == t3; }
    }
    NoCryptdeviceFails(line);
  }

  /** A single cryptdevice= with a UUID= descriptor: its '=' does not disturb the reading. */
  lemma SingleCryptdevice(line: string)
    requires line == "cryptdevice=" + "UUID=d55cc35b-e99b-44ce-be89-4c573fccfb0b" + ":" + "cryptroot"
                     + " " + "root" + "=" + "/dev/mapper/cryptroot" + "\n"
    ensures Parse(line) == LuksParams("cryptroot", Keyfile("/crypto_keyfile.bin", 0, 0), None)
  {
    var desc := "UUID=d55cc35b-e99b-44ce-be89-4c573fccfb0b";
    SingleRowDesc();
    SingleRowWords();
    DeviceThenUnrelated(line, desc, "cryptroot", "root", "/dev/mapper/cryptroot");
  }

  /** With two cryptdevice= tokens the last one wins. */
  lemma LastOfTwoCryptdevices(line: string)
    requires line == "cryptdevice=" + "/dev/sda1" + ":" + "cryptroot1" + " "
                     + "cryptdevice=" + "/dev/sda2" + ":" + "cryptroot2" + "\n"
    ensures Parse(line) == LuksParams("cryptroot2", Keyfile("/crypto_keyfile.bin", 0, 0), None)
  {
    assert IsWord("/dev/sda1") && IsWord("/dev/sda2") && IsWord("cryptroot1") && IsWord("cryptroot2");
    DeviceThenDevice(line, "/dev/sda1", "cryptroot1", "/dev/sda2", "cryptroot2");
  }

  // The long literals of the rows, one fact per lemma to keep each proof small.

  lemma SingleRowDesc()
    ensures IsWord("UUID=d55cc35b-e99b-44ce-be89-4c573fccfb0b")
  {
  }

  lemma SingleRowWords()
    ensures ':' !in "UUID=d55cc35b-e99b-44ce-be89-4c573fccfb0b" && IsWord("/dev/mapper/cryptroot")
  {
  }

  lemma OptionsRowDesc()
    ensures IsWord("UUID=cd5dd4dc-5766-493e-b3c6-3d6dfd195082")
  {
  }

  lemma OptionsRowWords()
    ensures ':' !in "UUID=cd5dd4dc-5766-493e-b3c6-3d6dfd195082"
    ensures IsWord("allow-discards") && IsWord("/dev/mapper/system-root")
  {
  }

  /** A third, options field is ignored; so is the missing final newline. */
  lemma CryptdeviceWithOptions(line: string)
    requires line == "cryptdevice=" + "UUID=cd5dd4dc-5766-493e-b3c6-3d6dfd195082" + ":" + "cryptolvm"
                     + ":" + "allow-discards" + " " + "root" + "=" + "/dev/mapper/system-root"
    ensures Parse(line) == LuksParams("cryptolvm", Keyfile("/crypto_keyfile.bin", 0, 0), None)
  {
    var desc := "UUID=cd5dd4dc-5766-493e-b3c6-3d6dfd195082";
    OptionsRowDesc();
    OptionsRowWords();
    DeviceOptionsThenUnrelated(line, desc, "cryptolvm", "allow-discards", "root", "/dev/mapper/system-root");
  }

  /** cryptkey=<label>:<path> names a key file on a filesystem; the device name is unchanged. */
  lemma CryptkeyOnFilesystem(line: string)
    requires line == "cryptdevice=" + "/dev/sda2" + ":" + "root" + " "
                     + "cryptkey=" + "rootfs" + ":" + "/var/rootfs.key" + "\n"
    ensures Parse(line) == LuksParams("root", Keyfile("/var/rootfs.key", 0, 0), None)
  {
    assert IsWord("/dev/sda2") && IsWord("rootfs") && IsWord("/var/rootfs.key");
    DeviceThenKeyFile(line, "/dev/sda2", "root", "rootfs", "/var/rootfs.key");
  }

  /** cryptkey=<device>:<offset>:<size> names a key embedded in a raw device. */
  lemma CryptkeyEmbedded(line: string)
    requires line == "cryptdevice=" + "/dev/sda2" + ":" + "root" + " "
                     + "cryptkey=" + "/dev/sdb" + ":" + "512" + ":" + "1024" + "\n"
    ensures Parse(line) == LuksParams("root", Keyfile("/dev/sdb", 512, 1024), None)
  {
    assert IsWord("/dev/sda2") && IsWord("/dev/sdb");
    assert FormatDecimal(512) == "512" && FormatDecimal(1024) == "1024";
    DeviceThenEmbeddedKey(line, "/dev/sda2", "root", "/dev/sdb", 512, 1024);
  }

  /** Without cryptdevice= the reading fails: empty name, zero keyfile, "no root cryptdevice". */
  lemma NoCryptdevice(line: string)
    requires line == "BOOT_IMAGE" + "=" + "../vmlinuz-linux" + " " + "rw" + " "
                     + "initrd" + "=" + "../initramfs-linux.img" + "\n"
    ensures Parse(line) == LuksParams("", Keyfile("", 0, 0), Some(NoRootCryptdevice))
  {
    assert IsWord("BOOT_IMAGE") && IsWord("../vmlinuz-linux") && IsWord("rw");
    assert IsWord("initrd") && IsWord("../initramfs-linux.img");
    NoDeviceLine(line, "BOOT_IMAGE", "../vmlinuz-linux", "rw", "initrd", "../initramfs-linux.img");
  }
}
