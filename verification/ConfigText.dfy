/** What a configuration file means (loadServerConfig in main.cpp), as functions on its text. */
module ConfigText {

  predicate Blank(c: char) {
    c == ' ' || c == '\t'
  }

  ghost predicate Blanks(s: string) {
    forall i | 0 <= i < |s| :: s[i] == ' ' || s[i] == '\t'
  }

  // ---- one line -----------------------------------------------------------------------------------

  /** Skips leading blanks, but never the last character. */
  function SkipBlanks(s: string): (r: string)
    ensures |r| <= |s|
  {
    if |s| > 1 && Blank(s[0]) then SkipBlanks(s[1..]) else s
  }

  function TrimEnd(s: string): string {
    if s != "" && (Blank(s[|s| - 1]) || s[|s| - 1] == '\n') then TrimEnd(s[..|s| - 1]) else s
  }

  lemma SkipOne(s: string, i: nat)
    requires i + 1 < |s| && Blank(s[i])
    ensures SkipBlanks(s[i..]) == SkipBlanks(s[i + 1..])
  {
    assert s[i..][1..] == s[i + 1..];
  }

  lemma SkipNoMore(s: string, i: nat)
    requires i <= |s| && (i + 1 < |s| ==> !Blank(s[i]))
    ensures SkipBlanks(s[i..]) == s[i..]
  {
  }

  /** strpbrk(s, " \t"), as an index; |s| if there is none. */
  function FirstBlank(s: string): (k: nat)
    ensures k <= |s|
    ensures k < |s| ==> Blank(s[k])
  {
    if s == "" || Blank(s[0]) then 0 else 1 + FirstBlank(s[1..])
  }

  datatype Line = Ignored | Malformed | Setting(name: string, value: string)

  function ReadLine(s: string): Line {
    var b := SkipBlanks(s);
    if |b| <= 2 || b[0] == '#' then Ignored else
      var k := FirstBlank(b);
      if k == |b| then Malformed else
        var v := TrimEnd(SkipBlanks(b[k + 1..]));
        if v == "" then Malformed else Setting(b[..k], v)
  }

  // ---- which lines carry a setting ----------------------------------------------------------------

  ghost predicate Solid(s: string) {
    forall i | 0 <= i < |s| :: s[i] != ' ' && s[i] != '\t'
  }

  ghost predicate IsName(n: string) {
    n != "" && n[0] != '#' && Solid(n)
  }

  /** Blanks inside are fine, at the ends they are not. */
  predicate IsValue(v: string) {
    v != "" && v[0] != ' ' && v[0] != '\t' && v[|v| - 1] != ' ' && v[|v| - 1] != '\t' && v[|v| - 1] != '\n'
  }

  ghost predicate IsTail(t: string) {
    forall i | 0 <= i < |t| :: t[i] == ' ' || t[i] == '\t' || t[i] == '\n'
  }

  /** `s` shows name and value with blanks around them, and blanks or newlines at the end. */
  ghost predicate Shows(s: string, lead: string, n: string, sep: string, v: string, tail: string) {
    && s == lead + n + sep + v + tail
    && Blanks(lead) && IsName(n) && Blanks(sep) && sep != "" && IsValue(v) && IsTail(tail)
  }

  lemma {:induction false} SkipLead(lead: string, s: string)
    requires Blanks(lead) && s != "" && !Blank(s[0])
    ensures SkipBlanks(lead + s) == s
  {
    if lead == "" {
      assert lead + s == s;
    } else {
      assert (lead + s)[1..] == lead[1..] + s;
      SkipLead(lead[1..], s);
    }
  }

  lemma {:induction false} TrimTail(v: string, tail: string)
    requires IsTail(tail) && IsValue(v)
    ensures TrimEnd(v + tail) == v
  {
    if tail == "" {
      assert v + tail == v;
    } else {
      assert (v + tail)[..|v + tail| - 1] == v + tail[..|tail| - 1];
      TrimTail(v, tail[..|tail| - 1]);
    }
  }

  lemma {:induction false} NameEnds(n: string, rest: string)
    requires Solid(n) && rest != "" && Blank(rest[0])
    ensures FirstBlank(n + rest) == |n|
  {
    if n == "" {
      assert n + rest == rest;
    } else {
      assert (n + rest)[1..] == n[1..] + rest;
      NameEnds(n[1..], rest);
    }
  }

  /** Writing a setting down and reading the line gives the setting back. */
  lemma ShownIsRead(s: string, lead: string, n: string, sep: string, v: string, tail: string)
    requires Shows(s, lead, n, sep, v, tail)
    ensures ReadLine(s) == Setting(n, v)
  {
    var b := n + (sep + (v + tail));
    assert s == lead + b;
    SkipLead(lead, b);
    NameEnds(n, sep + (v + tail));
    assert b[..|n|] == n;
    assert b[|n| + 1..] == sep[1..] + (v + tail);
    SkipLead(sep[1..], v + tail);
    TrimTail(v, tail);
  }

  lemma {:induction false} SkipSplits(s: string) returns (lead: string)
    ensures s == lead + SkipBlanks(s) && Blanks(lead)
    ensures |SkipBlanks(s)| > 1 ==> !Blank(SkipBlanks(s)[0])
  {
    if |s| > 1 && Blank(s[0]) {
      lead := SkipSplits(s[1..]);
      lead := [s[0]] + lead;
    } else {
      lead := "";
    }
  }

  lemma {:induction false} TrimSplits(s: string) returns (tail: string)
    ensures s == TrimEnd(s) + tail && IsTail(tail)
    ensures TrimEnd(s) != "" ==> !Blank(TrimEnd(s)[|TrimEnd(s)| - 1]) && TrimEnd(s)[|TrimEnd(s)| - 1] != '\n'
  {
    if s != "" && (Blank(s[|s| - 1]) || s[|s| - 1] == '\n') {
      tail := TrimSplits(s[..|s| - 1]);
      tail := tail + [s[|s| - 1]];
    } else {
      tail := "";
    }
  }

  lemma {:induction false} NameSplits(s: string)
    ensures forall i | 0 <= i < FirstBlank(s) :: !Blank(s[i])
  {
    if s != "" && !Blank(s[0]) {
      NameSplits(s[1..]);
    }
  }

  /** The value part: what is left of `r` after skipping and trimming is a value with blanks around it. */
  lemma ValueSplits(r: string) returns (mid: string, tail: string)
    requires TrimEnd(SkipBlanks(r)) != ""
    ensures r == mid + TrimEnd(SkipBlanks(r)) + tail && Blanks(mid) && IsTail(tail) && IsValue(TrimEnd(SkipBlanks(r)))
  {
    var w := SkipBlanks(r);
    var v := TrimEnd(w);
    mid := SkipSplits(r);
    tail := TrimSplits(w);
    Rejoin(r, mid, v, tail);
    assert w[0] == v[0];
    assert |w| == 1 ==> v == w;
  }

  lemma Rejoin(r: string, mid: string, v: string, tail: string)
    requires r == mid + (v + tail)
    ensures r == mid + v + tail
  {
  }

  lemma NameIsName(b: string)
    requires b != "" && b[0] != '#' && FirstBlank(b) > 0
    ensures IsName(b[..FirstBlank(b)])
  {
    NameSplits(b);
  }

  lemma ReadParts(s: string, n: string, v: string)
    requires ReadLine(s) == Setting(n, v)
    ensures var b := SkipBlanks(s);
            && |b| > 2 && b[0] != '#' && FirstBlank(b) < |b| && n == b[..FirstBlank(b)]
            && v == TrimEnd(SkipBlanks(b[FirstBlank(b) + 1..])) && v != ""
  {
  }

  /** Only lines that show a setting yield one, and they yield the one they show. */
  lemma ReadIsShown(s: string, n: string, v: string) returns (lead: string, sep: string, tail: string)
    requires ReadLine(s) == Setting(n, v)
    ensures Shows(s, lead, n, sep, v, tail)
  {
    ReadParts(s, n, v);
    var b := SkipBlanks(s);
    var k := FirstBlank(b);
    lead := SkipSplits(s);
    NameIsName(b);
    var mid;
    mid, tail := ValueSplits(b[k + 1..]);
    sep := [b[k]] + mid;
    SepIsBlanks(b[k], mid);
    Reassemble(b, k, mid, v, tail);
    assert b == n + sep + v + tail;
    Glue(lead, n, sep, v, tail);
  }

  lemma SepIsBlanks(c: char, mid: string)
    requires Blank(c) && Blanks(mid)
    ensures Blanks([c] + mid) && [c] + mid != ""
  {
  }

  lemma Glue(lead: string, n: string, sep: string, v: string, tail: string)
    ensures lead + (n + sep + v + tail) == lead + n + sep + v + tail
  {
  }

  lemma Reassemble(b: string, k: nat, mid: string, v: string, tail: string)
    requires k < |b| && b[k + 1..] == mid + v + tail
    ensures b == b[..k] + ([b[k]] + mid) + v + tail
  {
    assert b == b[..k] + [b[k]] + b[k + 1..];
  }

  // ---- the other lines ------------------------------------------------------------------------------

  /** A comment or an empty line: behind blanks a '#', or no more than two characters, the newline included. */
  ghost predicate Ignorable(s: string) {
    exists n: nat :: n <= |s| && Blanks(s[..n]) && (|s| - n <= 2 || s[n] == '#')
  }

  lemma {:induction false} SkipAtLeast(s: string, n: nat)
    requires n <= |s| && Blanks(s[..n])
    ensures |SkipBlanks(s)| <= if |s| - n > 1 then |s| - n else 1
    decreases n
  {
    if n > 0 && |s| > 1 {
      assert s[1..][..n - 1] == s[..n][1..];
      SkipAtLeast(s[1..], n - 1);
    }
  }

  /** These are the lines that are passed over, and no others. */
  lemma IgnoredExactly(s: string)
    ensures ReadLine(s) == Ignored <==> Ignorable(s)
  {
    if ReadLine(s) == Ignored {
      var lead := SkipSplits(s);
      assert s[..|lead|] == lead;
    }
    if Ignorable(s) {
      var n: nat :| n <= |s| && Blanks(s[..n]) && (|s| - n <= 2 || s[n] == '#');
      SkipAtLeast(s, n);
      if |s| - n > 2 {
        assert s == s[..n] + s[n..];
        SkipLead(s[..n], s[n..]);
      }
    }
  }

  ghost predicate IsSetting(s: string) {
    exists lead, n, sep, v, tail :: Shows(s, lead, n, sep, v, tail)
  }

  /** What is neither a setting nor to be passed over is a mistake. */
  lemma MalformedExactly(s: string)
    ensures ReadLine(s) == Malformed <==> !Ignorable(s) && !IsSetting(s)
  {
    IgnoredExactly(s);
    if IsSetting(s) {
      var lead, n, sep, v, tail :| Shows(s, lead, n, sep, v, tail);
      ShownIsRead(s, lead, n, sep, v, tail);
    }
    if ReadLine(s).Setting? {
      var lead, sep, tail := ReadIsShown(s, ReadLine(s).name, ReadLine(s).value);
      assert Shows(s, lead, ReadLine(s).name, sep, ReadLine(s).value, tail);
    }
  }

  lemma {:induction false} TailTrims(t: string)
    requires IsTail(t)
    ensures TrimEnd(t) == ""
  {
    if t != "" {
      TailTrims(t[..|t| - 1]);
    }
  }

  lemma {:induction false} SkippedTail(t: string)
    requires IsTail(t)
    ensures IsTail(SkipBlanks(t))
  {
    if |t| > 1 && Blank(t[0]) {
      SkippedTail(t[1..]);
    }
  }

  /** For instance a name with nothing behind it but blanks. */
  lemma NameAloneIsMalformed(lead: string, n: string, tail: string)
    requires Blanks(lead) && IsName(n) && IsTail(tail) && |n| + |tail| > 2
    ensures ReadLine(lead + n + tail) == Malformed
  {
    var b := n + tail;
    assert lead + n + tail == lead + b;
    SkipLead(lead, b);
    var k := FirstBlank(b);
    FirstBlankBehind(n, tail);
    if k < |b| {
      assert b[k + 1..] == tail[k - |n| + 1..];
      SkippedTail(b[k + 1..]);
      TailTrims(SkipBlanks(b[k + 1..]));
    }
  }

  lemma {:induction false} FirstBlankBehind(n: string, tail: string)
    requires Solid(n)
    ensures FirstBlank(n + tail) == |n| + FirstBlank(tail)
  {
    if n == "" {
      assert n + tail == tail;
    } else {
      assert (n + tail)[1..] == n[1..] + tail;
      FirstBlankBehind(n[1..], tail);
    }
  }

  // ---- settings -----------------------------------------------------------------------------------

  const INT_MAX: int := 0x7fff_ffff
  const INT_MIN: int := -0x8000_0000

  /** The int of the fields that hold numbers. */
  type int32 = x: int | INT_MIN <= x <= INT_MAX

  /** What the surroundings decide: which log files can be opened, and what atoi makes of a number that is not an int. */
  datatype Env = Env(canOpen: string -> bool, overflow: string -> int32)

  /** g_Server, as far as the file can set it. */
  datatype Settings = Settings(
    daemonize: int32, pidfile: string, port: int32, bindaddr: string, maxidletime: int32,
    verbosity: int32, logfile: string, maxclients: int32, maxthreads: int32)

  /** initServerConfig */
  const Defaults: Settings := Settings(0, "/var/run/myepoll.pid", 8090, "", 0, 0, "", 10000, 10)

  function LowerChar(c: char): char {
    if 'A' <= c <= 'Z' then ((c as int) + 32) as char else c
  }

  function Lower(s: string): (r: string)
    ensures |r| == |s|
  {
    seq(|s|, i requires 0 <= i < |s| => LowerChar(s[i]))
  }

  /** 0 == strcasecmp(s, word), for a word in lower case. */
  predicate Same(s: string, word: string) {
    Lower(s) == word
  }

  /** The same text but for capitals. */
  ghost predicate Alike(s: string, word: string) {
    |s| == |word| && forall i | 0 <= i < |s| :: s[i] == word[i] || ('A' <= s[i] <= 'Z' && s[i] as int + 32 == word[i] as int)
  }

  ghost predicate NoCapitals(word: string) {
    forall i | 0 <= i < |word| :: !('A' <= word[i] <= 'Z')
  }

  /** That is how the names and words of the file are recognised. */
  lemma SameIsAlike(s: string, word: string)
    requires NoCapitals(word)
    ensures Same(s, word) <==> Alike(s, word)
  {
    if Same(s, word) {
      forall i | 0 <= i < |s| ensures s[i] == word[i] || ('A' <= s[i] <= 'Z' && s[i] as int + 32 == word[i] as int) {
        assert Lower(s)[i] == word[i];
      }
    }
    if Alike(s, word) {
      forall i | 0 <= i < |s| ensures Lower(s)[i] == word[i] {
      }
    }
  }

  predicate Digit(c: char) {
    '0' <= c <= '9'
  }

  function DigitValue(c: char): int
    requires Digit(c)
  {
    c as int - '0' as int
  }

  predicate Space(c: char) {
    c == ' ' || '\t' <= c <= '\r'
  }

  /** The digits from the front of s, read after the number `acc`. */
  function Digits(s: string, acc: int): int {
    if s == "" || !Digit(s[0]) then acc else Digits(s[1..], 10 * acc + DigitValue(s[0]))
  }

  /** The number a text begins with, after white space; 0 if there is none. */
  function Number(s: string): int {
    if s == "" then 0
    else if Space(s[0]) then Number(s[1..])
    else if s[0] == '-' then -Digits(s[1..], 0)
    else if s[0] == '+' then Digits(s[1..], 0)
    else Digits(s, 0)
  }

  /** atoi: C leaves open what it yields for a number that is not an int. */
  function Atoi(s: string, env: Env): int32 {
    var n := Number(s);
    if INT_MIN <= n <= INT_MAX then n else env.overflow(s)
  }

  /** The effect of one setting, and whether it is acceptable; a bad number has already been stored. */
  function Apply(g: Settings, name: string, value: string, env: Env): (Settings, bool) {
    var n := Atoi(value, env);
    if Same(name, "daemonize") then
      if Same(value, "yes") then (g.(daemonize := 1), true)
      else if Same(value, "no") then (g.(daemonize := 0), true)
      else (g, false)
    else if Same(name, "pidfile") then (g.(pidfile := value), true)
    else if Same(name, "port") then (g.(port := n), 0 <= n <= 65535)
    else if Same(name, "bind") then (g.(bindaddr := value), true)
    else if Same(name, "timeout") then (g.(maxidletime := n), n >= 0)
    else if Same(name, "loglevel") then
      if Same(value, "debug") then (g.(verbosity := 0), true)
      else if Same(value, "verbose") then (g.(verbosity := 1), true)
      else if Same(value, "notice") then (g.(verbosity := 2), true)
      else if Same(value, "warning") then (g.(verbosity := 3), true)
      else (g, false)
    else if Same(name, "logfile") then
      if Same(value, "stdout") then (g, true) else (g.(logfile := value), env.canOpen(value))
    else if Same(name, "maxclients") then (g.(maxclients := n), n >= 1)
    else if Same(name, "maxthreads") then (g.(maxthreads := n), n >= 1)
    else (g, true)
  }

  /** What the rest of the server relies on. */
  predicate Sound(g: Settings) {
    && 0 <= g.port <= 65535 && g.maxclients >= 1 && g.maxthreads >= 1 && g.maxidletime >= 0
    && 0 <= g.verbosity <= 3 && 0 <= g.daemonize <= 1
  }

  // ---- the file -------------------------------------------------------------------------------------

  const CONFIGLINE_MAX: nat := 1024

  /** How much of a non-empty text one fgets takes: through the first newline, at most `room` characters. */
  function Chunk(text: string, room: nat): (k: nat)
    requires text != "" && room > 0
    ensures 1 <= k <= |text| && k <= room && '\n' !in text[..k - 1]
    ensures k == |text| || k == room || text[k - 1] == '\n'
  {
    if text[0] == '\n' || |text| == 1 || room == 1 then 1 else
      var rest := Chunk(text[1..], room - 1);
      assert text[..rest] == [text[0]] + text[1..][..rest - 1];
      1 + rest
  }

  /** The C string an fgets leaves: what it took, up to a NUL in it. */
  function CString(s: string): (r: string)
    ensures |r| <= |s| && r == s[..|r|] && '\0' !in r && (|r| < |s| ==> s[|r|] == '\0')
  {
    if s == "" || s[0] == '\0' then "" else [s[0]] + CString(s[1..])
  }

  /** loadServerConfig: the lines in order, up to the first bad one; the result and the return value. */
  function Load(g: Settings, text: string, env: Env): (Settings, int)
    decreases |text|
  {
    if text == "" then (g, 0) else
      var k := Chunk(text, CONFIGLINE_MAX - 1);
      match ReadLine(CString(text[..k]))
      case Ignored => Load(g, text[k..], env)
      case Malformed => (g, -1)
      case Setting(name, value) =>
        var (g', ok) := Apply(g, name, value, env);
        if ok then Load(g', text[k..], env) else (g', -1)
  }

  lemma ApplySound(g: Settings, name: string, value: string, env: Env)
    requires Sound(g) && Apply(g, name, value, env).1
    ensures Sound(Apply(g, name, value, env).0)
  {
  }

  /** Whatever the file says: if it is accepted, the limits the server relies on hold. */
  lemma {:induction false} AcceptedIsSound(g: Settings, text: string, env: Env)
    requires Sound(g)
    ensures Load(g, text, env).1 == 0 ==> Sound(Load(g, text, env).0)
    ensures Load(g, text, env).1 == 0 || Load(g, text, env).1 == -1
    decreases |text|
  {
    if text != "" {
      var k := Chunk(text, CONFIGLINE_MAX - 1);
      match ReadLine(CString(text[..k]))
      case Ignored => AcceptedIsSound(g, text[k..], env);
      case Malformed =>
      case Setting(name, value) =>
        if Apply(g, name, value, env).1 {
          ApplySound(g, name, value, env);
          AcceptedIsSound(Apply(g, name, value, env).0, text[k..], env);
        }
    }
  }

  lemma {:induction false} ChunkAppend(a: string, b: string, room: nat)
    requires a != "" && a[|a| - 1] == '\n' && room > 0
    ensures Chunk(a + b, room) == Chunk(a, room) <= |a|
  {
    if a[0] != '\n' && room > 1 {
      assert (a + b)[1..] == a[1..] + b;
      ChunkAppend(a[1..], b, room - 1);
    }
  }

  /** A fold: loading two files on end is loading the second from where the first has left off, unless the first is bad. */
  lemma {:induction false} LoadAppend(g: Settings, a: string, b: string, env: Env)
    requires a == "" || a[|a| - 1] == '\n'
    ensures Load(g, a + b, env) ==
            var (g', ret) := Load(g, a, env); if ret == 0 then Load(g', b, env) else (g', ret)
    decreases |a|
  {
    if a == "" {
      assert a + b == b;
    } else {
      ChunkAppend(a, b, CONFIGLINE_MAX - 1);
      var k := Chunk(a, CONFIGLINE_MAX - 1);
      assert (a + b)[..k] == a[..k];
      assert (a + b)[k..] == a[k..] + b;
      match ReadLine(CString(a[..k]))
      case Ignored => LoadAppend(g, a[k..], b, env);
      case Malformed =>
      case Setting(name, value) =>
        if Apply(g, name, value, env).1 {
          LoadAppend(Apply(g, name, value, env).0, a[k..], b, env);
        }
    }
  }

  lemma {:induction false} ChunkIsLine(line: string, rest: string, room: nat)
    requires |line| < room && '\n' !in line
    ensures Chunk(line + "\n" + rest, room) == |line| + 1
  {
    if line == "" {
      assert (line + "\n" + rest)[0] == '\n';
    } else {
      assert (line + "\n" + rest)[1..] == line[1..] + "\n" + rest;
      ChunkIsLine(line[1..], rest, room - 1);
    }
  }

  lemma {:induction false} CStringWhole(s: string)
    requires '\0' !in s
    ensures CString(s) == s
  {
  }

  /** A line of fewer than 1023 characters that shows a setting has exactly the effect of that setting. */
  lemma SettingLine(g: Settings, lead: string, n: string, sep: string, v: string, tail: string, rest: string, env: Env)
    requires var line := lead + n + sep + v + tail;
             Shows(line, lead, n, sep, v, tail) && |line| < 1023 && '\n' !in line && '\0' !in line
    ensures Load(g, lead + n + sep + v + tail + "\n" + rest, env) ==
            var (g', ok) := Apply(g, n, v, env); if ok then Load(g', rest, env) else (g', -1)
  {
    var line := lead + n + sep + v + tail;
    LineIsRead(g, line, rest, env);
    assert line + "\n" == lead + n + sep + v + (tail + "\n");
    ShownIsRead(line + "\n", lead, n, sep, v, tail + "\n");
  }

  lemma LineIsRead(g: Settings, line: string, rest: string, env: Env)
    requires |line| < 1023 && '\n' !in line && '\0' !in line
    ensures Load(g, line + "\n" + rest, env) ==
            match ReadLine(line + "\n")
            case Ignored => Load(g, rest, env)
            case Malformed => (g, -1)
            case Setting(n, v) => var (g', ok) := Apply(g, n, v, env); if ok then Load(g', rest, env) else (g', -1)
  {
    var text := line + "\n" + rest;
    ChunkIsLine(line, rest, CONFIGLINE_MAX - 1);
    assert text[..|line| + 1] == line + "\n";
    assert text[|line| + 1..] == rest;
    CStringWhole(line + "\n");
  }

  /** Comments and empty lines have no effect. */
  lemma IgnoredLine(g: Settings, line: string, rest: string, env: Env)
    requires |line| < 1023 && '\n' !in line && '\0' !in line && Ignorable(line + "\n")
    ensures Load(g, line + "\n" + rest, env) == Load(g, rest, env)
  {
    LineIsRead(g, line, rest, env);
    IgnoredExactly(line + "\n");
  }

  /** A line that is neither that nor a setting stops the load. */
  lemma MalformedLine(g: Settings, line: string, rest: string, env: Env)
    requires |line| < 1023 && '\n' !in line && '\0' !in line && !Ignorable(line + "\n") && !IsSetting(line + "\n")
    ensures Load(g, line + "\n" + rest, env) == (g, -1)
  {
    LineIsRead(g, line, rest, env);
    MalformedExactly(line + "\n");
  }

  /** A longer line is cut after 1023 characters, and what is left is read as another line. */
  lemma LongLineIsCut(g: Settings, line: string, rest: string, env: Env)
    requires |line| == 1023 && '\n' !in line
    ensures Load(g, line + rest, env) == var (g', ret) := Load(g, line, env); if ret == 0 then Load(g', rest, env) else (g', ret)
  {
    ChunkIsFull(line, "", CONFIGLINE_MAX - 1);
    ChunkIsFull(line, rest, CONFIGLINE_MAX - 1);
    assert line + "" == line && line[..1023] == line && line[1023..] == "";
    assert (line + rest)[..1023] == line && (line + rest)[1023..] == rest;
  }

  lemma {:induction false} ChunkIsFull(line: string, rest: string, room: nat)
    requires |line| == room > 0 && '\n' !in line
    ensures Chunk(line + rest, room) == room
  {
    if |line| > 1 {
      assert (line + rest)[1..] == line[1..] + rest;
      ChunkIsFull(line[1..], rest, room - 1);
    }
  }

  /** The plainest way to write a setting: name, one space, value. */
  lemma PlainLine(g: Settings, n: string, v: string, rest: string, env: Env)
    requires IsName(n) && IsValue(v) && |n| + |v| < 1020
    requires '\n' !in n && '\0' !in n && '\n' !in v && '\0' !in v
    ensures Load(g, n + " " + v + "\n" + rest, env) ==
            var (g', ok) := Apply(g, n, v, env); if ok then Load(g', rest, env) else (g', -1)
  {
    var line := "" + n + " " + v + "";
    assert line == n + " " + v;
    PlainlyShown(line, n, v);
    SettingLine(g, "", n, " ", v, "", rest, env);
  }

  lemma PlainlyShown(line: string, n: string, v: string)
    requires IsName(n) && IsValue(v) && line == n + " " + v
    requires '\n' !in n && '\0' !in n && '\n' !in v && '\0' !in v
    ensures Shows(line, "", n, " ", v, "") && '\n' !in line && '\0' !in line
  {
    assert line == "" + n + " " + v + "";
  }

  // ---- numbers --------------------------------------------------------------------------------------

  function DigitChar(d: nat): (c: char)
    requires d < 10
    ensures Digit(c) && DigitValue(c) == d
  {
    ('0' as int + d) as char
  }

  /** The value of a row of digits. */
  function Value(ds: string): int
    requires forall i | 0 <= i < |ds| :: '0' <= ds[i] <= '9'
  {
    if ds == "" then 0 else 10 * Value(ds[..|ds| - 1]) + (ds[|ds| - 1] as int - '0' as int)
  }

  predicate IsSpace(c: char) {
    c == ' ' || c == '\t' || c == '\n' || c == '\r' || c as int == 11 || c as int == 12
  }

  lemma {:induction false} DigitsAre(ds: string, rest: string, acc: int, m: int)
    requires forall i | 0 <= i < |ds| :: '0' <= ds[i] <= '9'
    requires rest != "" ==> !('0' <= rest[0] <= '9')
    requires m == Shifted(acc, |ds|)
    ensures Digits(ds + rest, acc) == m + Value(ds)
    decreases |ds|
  {
    if ds == "" {
      assert ds + rest == rest;
    } else {
      assert (ds + rest)[1..] == ds[1..] + rest;
      DigitsAre(ds[1..], rest, 10 * acc + DigitValue(ds[0]), Shifted(10 * acc + DigitValue(ds[0]), |ds| - 1));
      FirstDigit(ds, acc);
    }
  }

  /** acc with n zeros behind it. */
  function Shifted(acc: int, n: nat): int {
    if n == 0 then acc else 10 * Shifted(acc, n - 1)
  }

  lemma {:induction false} ShiftedTwice(acc: int, n: nat)
    ensures Shifted(10 * acc, n) == 10 * Shifted(acc, n)
  {
    if n > 0 {
      ShiftedTwice(acc, n - 1);
    }
  }

  lemma {:induction false} ShiftedSum(a: int, b: int, n: nat)
    ensures Shifted(a + b, n) == Shifted(a, n) + Shifted(b, n)
  {
    if n > 0 {
      ShiftedSum(a, b, n - 1);
    }
  }

  /** Taking the first digit off instead of the last. */
  lemma {:induction false} FirstDigit(ds: string, acc: int)
    requires ds != "" && forall i | 0 <= i < |ds| :: '0' <= ds[i] <= '9'
    ensures Shifted(10 * acc + DigitValue(ds[0]), |ds| - 1) + Value(ds[1..]) == Shifted(acc, |ds|) + Value(ds)
    decreases |ds|
  {
    var d := DigitValue(ds[0]);
    ShiftedTwice(acc, |ds| - 1);
    ShiftedSum(10 * acc, d, |ds| - 1);
    LeadingDigit(ds);
  }

  lemma {:induction false} LeadingDigit(ds: string)
    requires ds != "" && forall i | 0 <= i < |ds| :: '0' <= ds[i] <= '9'
    ensures Value(ds) == Shifted(ds[0] as int - '0' as int, |ds| - 1) + Value(ds[1..])
    decreases |ds|
  {
    if |ds| == 1 {
      assert ds[..0] == "" && ds[1..] == "";
    } else {
      var front := ds[..|ds| - 1];
      assert front[1..] == ds[1..][..|ds| - 2];
      LeadingDigit(front);
    }
  }

  /** atoi: white space, an optional sign, then digits up to the first other character; 0 if there are none. */
  lemma {:induction false} NumberIs(lead: string, sign: string, ds: string, rest: string)
    requires (forall i | 0 <= i < |lead| :: IsSpace(lead[i])) && (forall i | 0 <= i < |ds| :: '0' <= ds[i] <= '9')
    requires rest != "" ==> !('0' <= rest[0] <= '9') && (ds == "" && sign == "" ==> !IsSpace(rest[0]) && rest[0] != '-' && rest[0] != '+')
    requires sign == "" || sign == "-" || sign == "+"
    ensures Number(lead + sign + ds + rest) == if sign == "-" then -Value(ds) else Value(ds)
    decreases |lead|
  {
    var s := lead + sign + ds + rest;
    if lead != "" {
      assert s[1..] == lead[1..] + sign + ds + rest;
      NumberIs(lead[1..], sign, ds, rest);
    } else {
      ZeroShifted(|ds|);
      DigitsAre(ds, rest, 0, 0);
      if sign == "" {
        assert s == ds + rest;
      } else {
        assert s[1..] == ds + rest;
      }
    }
  }

  lemma {:induction false} ZeroShifted(n: nat)
    ensures Shifted(0, n) == 0
  {
    if n > 0 {
      ZeroShifted(n - 1);
    }
  }

  /** Decimal notation. */
  function Itoa(n: nat): (s: string)
    ensures s != "" && forall c | c in s :: Digit(c)
  {
    if n < 10 then [DigitChar(n)] else Itoa(n / 10) + [DigitChar(n % 10)]
  }

  lemma {:induction false} DigitsAppend(s: string, c: char, acc: int)
    requires (forall d | d in s :: Digit(d)) && Digit(c)
    ensures Digits(s + [c], acc) == 10 * Digits(s, acc) + DigitValue(c)
  {
    if s == "" {
      assert s + [c] == [c];
      assert Digits([c][1..], 10 * acc + DigitValue(c)) == 10 * acc + DigitValue(c);
    } else {
      assert (s + [c])[1..] == s[1..] + [c];
      DigitsAppend(s[1..], c, 10 * acc + DigitValue(s[0]));
    }
  }

  lemma {:induction false} DigitsOfItoa(n: nat)
    ensures Digits(Itoa(n), 0) == n
  {
    if n >= 10 {
      DigitsOfItoa(n / 10);
      DigitsAppend(Itoa(n / 10), DigitChar(n % 10), 0);
    } else {
      assert Digits([DigitChar(n)][1..], n) == n;
    }
  }

  lemma AtoiOfItoa(n: nat, env: Env)
    requires n <= INT_MAX
    ensures Atoi(Itoa(n), env) == n
  {
    DigitsOfItoa(n);
    assert Digit(Itoa(n)[0]);
  }

  function PowerOfTen(k: nat): nat {
    if k == 0 then 1 else 10 * PowerOfTen(k - 1)
  }

  lemma {:induction false} ItoaLength(n: nat, k: nat)
    requires n < PowerOfTen(k) && k > 0
    ensures |Itoa(n)| <= k
    decreases k
  {
    if n >= 10 {
      ItoaLength(n / 10, k - 1);
    }
  }

  lemma NumberIsValue(n: nat)
    ensures IsValue(Itoa(n)) && '\n' !in Itoa(n) && '\0' !in Itoa(n)
  {
    assert Itoa(n)[0] in Itoa(n) && Itoa(n)[|Itoa(n)| - 1] in Itoa(n);
  }

  lemma Ten()
    ensures PowerOfTen(10) == 10_000_000_000
  {
    assert PowerOfTen(5) == 100_000;
  }
}
