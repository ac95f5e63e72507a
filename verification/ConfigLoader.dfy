/**
 loadServerConfig on its own terms: one line buffer that is cut in place with NULs, positions into
 it, and the fields of the server that are assigned as the lines go by.
 */
module ConfigLoader {
  import opened ConfigText

  /** The C string at position p of a buffer. */
  ghost predicate Holds(buf: seq<char>, p: nat, s: string) {
    p + |s| < |buf| && buf[p..p + |s|] == s && buf[p + |s|] == '\0' && '\0' !in s
  }

  lemma Suffix(buf: seq<char>, p: nat, s: string, i: nat)
    requires Holds(buf, p, s) && i <= |s|
    ensures Holds(buf, p + i, s[i..])
    ensures forall j | 0 <= j < |s| :: buf[p + j] == s[j] != '\0'
  {
    assert buf[p + i..p + |s|] == s[i..];
    forall j | 0 <= j < |s| ensures buf[p + j] == s[j] {
      assert buf[p..p + |s|][j] == s[j];
    }
  }

  /** strlen */
  method StrLen(buffer: array<char>, p: nat, ghost s: string) returns (n: nat)
    requires Holds(buffer[..], p, s)
    ensures n == |s|
  {
    Suffix(buffer[..], p, s, 0);
    n := 0;
    while buffer[p + n] != '\0'
      invariant n <= |s|
      decreases |s| - n
    {
      n := n + 1;
    }
  }

  /** The loop that skips leading blanks, up to the last character. */
  method SkipBlanksAt(buffer: array<char>, p: nat, ghost s: string) returns (q: nat)
    requires Holds(buffer[..], p, s)
    ensures Holds(buffer[..], q, SkipBlanks(s)) && p <= q
  {
    Suffix(buffer[..], p, s, 0);
    var n := StrLen(buffer, p, s);
    var i := 0;
    while i < n - 1 && Blank(buffer[p + i])
      invariant i <= |s| && SkipBlanks(s[i..]) == SkipBlanks(s)
    {
      SkipOne(s, i);
      i := i + 1;
    }
    SkipNoMore(s, i);
    Suffix(buffer[..], p, s, i);
    return p + i;
  }

  /** strpbrk(s, " \t") as an offset; strlen(s) stands for NULL. */
  method StrPBrk(buffer: array<char>, p: nat, ghost s: string) returns (k: nat)
    requires Holds(buffer[..], p, s)
    ensures k == FirstBlank(s)
  {
    Suffix(buffer[..], p, s, 0);
    k := 0;
    while buffer[p + k] != '\0' && !Blank(buffer[p + k])
      invariant k <= |s| && FirstBlank(s) == k + FirstBlank(s[k..])
      decreases |s| - k
    {
      assert s[k..][1..] == s[k + 1..];
      k := k + 1;
    }
  }

  /** The loop that steps back over trailing blanks and newlines. */
  method TrimmedLength(buffer: array<char>, p: nat, ghost s: string) returns (i: nat)
    requires Holds(buffer[..], p, s)
    ensures i <= |s| && s[..i] == TrimEnd(s)
  {
    Suffix(buffer[..], p, s, 0);
    i := StrLen(buffer, p, s);
    assert s[..i] == s;
    while i >= 1 && (Blank(buffer[p + i - 1]) || buffer[p + i - 1] == '\n')
      invariant i <= |s| && TrimEnd(s[..i]) == TrimEnd(s)
    {
      assert s[..i][..i - 1] == s[..i - 1];
      i := i - 1;
    }
  }

  /** Cutting a string with a NUL leaves two strings. */
  method Cut(buffer: array<char>, p: nat, k: nat, ghost s: string)
    requires Holds(buffer[..], p, s) && k < |s|
    modifies buffer
    ensures Holds(buffer[..], p, s[..k]) && Holds(buffer[..], p + k + 1, s[k + 1..])
    ensures forall i | 0 <= i < buffer.Length && i != p + k :: buffer[i] == old(buffer[i])
  {
    Suffix(buffer[..], p, s, k + 1);
    buffer[p + k] := '\0';
    assert buffer[p..p + k] == s[..k];
    assert buffer[p + k + 1..p + |s|] == s[k + 1..];
  }

  lemma Elsewhere(before: seq<char>, after: seq<char>, p: nat, s: string)
    requires Holds(before, p, s) && |after| == |before|
    requires forall i | p <= i <= p + |s| :: after[i] == before[i]
    ensures Holds(after, p, s)
  {
    assert after[p..p + |s|] == before[p..p + |s|];
  }

  /** The value behind position p: leading blanks skipped, trailing ones cut off in place. */
  method ParseValue(buffer: array<char>, p: nat, ghost r: string) returns (found: bool, value: nat)
    requires Holds(buffer[..], p, r)
    modifies buffer
    ensures found <==> TrimEnd(SkipBlanks(r)) != ""
    ensures found ==> Holds(buffer[..], value, TrimEnd(SkipBlanks(r)))
    ensures forall i | 0 <= i < p && i < buffer.Length :: buffer[i] == old(buffer[i])
  {
    value := SkipBlanksAt(buffer, p, r);
    ghost var w := SkipBlanks(r);
    var i := TrimmedLength(buffer, value, w);
    found := i != 0;
    if found {
      Suffix(buffer[..], value, w, 0);
      buffer[value + i] := '\0';
      assert buffer[value..value + i] == w[..i];
    }
  }

  /** Cuts the name off at its first blank and parses what is behind. */
  method CutAndParse(buffer: array<char>, name: nat, k: nat, ghost b: string) returns (found: bool, value: nat)
    requires Holds(buffer[..], name, b) && k < |b|
    modifies buffer
    ensures found <==> TrimEnd(SkipBlanks(b[k + 1..])) != ""
    ensures found ==> Holds(buffer[..], value, TrimEnd(SkipBlanks(b[k + 1..])))
    ensures Holds(buffer[..], name, b[..k])
  {
    Cut(buffer, name, k, b);
    ghost var cut := buffer[..];
    found, value := ParseValue(buffer, name + k + 1, b[k + 1..]);
    Elsewhere(cut, buffer[..], name, b[..k]);
  }

  datatype Kind = Skip | Missing | Found

  /** One line: on return `name` and `value` are the positions of the two C strings in the cut buffer. */
  method ParseLine(buffer: array<char>, ghost s: string) returns (kind: Kind, name: nat, value: nat)
    requires Holds(buffer[..], 0, s)
    modifies buffer
    ensures match ReadLine(s)
            case Ignored => kind == Skip
            case Malformed => kind == Missing
            case Setting(n, v) => kind == Found && Holds(buffer[..], name, n) && Holds(buffer[..], value, v)
  {
    value := 0;
    name := SkipBlanksAt(buffer, 0, s);
    ghost var b := SkipBlanks(s);
    Suffix(buffer[..], name, b, 0);
    var len := StrLen(buffer, name, b);
    if len <= 2 || buffer[name] == '#' {
      kind := Skip;
      return;
    }
    var k := StrPBrk(buffer, name, b);
    if k == len {
      kind := Missing;
      return;
    }
    var found;
    found, value := CutAndParse(buffer, name, k, b);
    kind := if found then Found else Missing;
  }

  /** Reads a C string out of the buffer. */
  method StringAt(buffer: array<char>, p: nat, ghost s: string) returns (r: string)
    requires Holds(buffer[..], p, s)
    ensures r == s
  {
    var n := StrLen(buffer, p, s);
    r := buffer[p..p + n];
  }

  /** fgets: fills the buffer with the next chunk of the text and a NUL; returns where the text goes on. */
  method FGets(buffer: array<char>, text: string, pos: nat) returns (next: nat)
    requires pos < |text| && buffer.Length == CONFIGLINE_MAX
    modifies buffer
    ensures next == pos + Chunk(text[pos..], CONFIGLINE_MAX - 1)
    ensures Holds(buffer[..], 0, CString(text[pos..next]))
  {
    var i := 0;
    next := pos;
    var more := true;
    ghost var k := Chunk(text[pos..], CONFIGLINE_MAX - 1);
    while more
      invariant next == pos + i && i <= k < buffer.Length
      invariant more ==> i < k && k == i + Chunk(text[next..], CONFIGLINE_MAX - 1 - i)
      invariant !more ==> i == k
      invariant forall j | 0 <= j < i :: buffer[j] == text[pos + j]
      decreases more, k - i
    {
      assert text[next..][1..] == text[next + 1..];
      buffer[i] := text[next];
      more := text[next] != '\n' && next + 1 < |text| && i + 2 < buffer.Length;
      i := i + 1;
      next := next + 1;
    }
    buffer[i] := '\0';
    ghost var s := CString(text[pos..next]);
    assert buffer[..i] == text[pos..next];
    assert buffer[..][0..0 + |s|] == text[pos..next][..|s|];
    assert |s| < i ==> buffer[|s|] == text[pos..next][|s|];
  }

  /** g_Server, as far as the configuration goes. */
  class Server {
    var daemonize: int32
    var pidfile: string
    var port: int32
    var bindaddr: string
    var maxidletime: int32
    var verbosity: int32
    var logfile: string
    var maxclients: int32
    var maxthreads: int32

    ghost function View(): Settings
      reads this
    {
      Settings(daemonize, pidfile, port, bindaddr, maxidletime, verbosity, logfile, maxclients, maxthreads)
    }

    /** initServerConfig */
    constructor ()
      ensures View() == Defaults && Sound(View())
      ensures port == 8090 && maxclients == 10000 && maxthreads == 10 && maxidletime == 0 && verbosity == 0 && daemonize == 0
    {
      daemonize, pidfile, port, bindaddr := 0, "/var/run/myepoll.pid", 8090, "";
      maxidletime, verbosity, logfile, maxclients, maxthreads := 0, 0, "", 10000, 10;
    }

    /** The chain of strcasecmp tests: assigns the field, then checks it. */
    method Assign(name: string, value: string, env: Env) returns (ok: bool)
      modifies this
      ensures (View(), ok) == Apply(old(View()), name, value, env)
    {
      ok := true;
      if Same(name, "daemonize") {
        if Same(value, "yes") {
          daemonize := 1;
        } else if Same(value, "no") {
          daemonize := 0;
        } else {
          ok := false;
        }
      } else if Same(name, "pidfile") {
        pidfile := value;
      } else if Same(name, "port") {
        port := Atoi(value, env);
        ok := !(port < 0 || port > 65535);
      } else if Same(name, "bind") {
        bindaddr := value;
      } else if Same(name, "timeout") {
        maxidletime := Atoi(value, env);
        ok := !(maxidletime < 0);
      } else if Same(name, "loglevel") {
        if Same(value, "debug") {
          verbosity := 0;
        } else if Same(value, "verbose") {
          verbosity := 1;
        } else if Same(value, "notice") {
          verbosity := 2;
        } else if Same(value, "warning") {
          verbosity := 3;
        } else {
          ok := false;
        }
      } else if Same(name, "logfile") {
        if !Same(value, "stdout") {
          logfile := value;
          ok := env.canOpen(logfile);
        }
      } else if Same(name, "maxclients") {
        maxclients := Atoi(value, env);
        ok := !(maxclients < 1);
      } else if Same(name, "maxthreads") {
        maxthreads := Atoi(value, env);
        ok := !(maxthreads < 1);
      }
    }

    /** loadServerConfig on a file that could be opened. */
    method LoadServerConfig(text: string, env: Env) returns (nRet: int)
      modifies this
      ensures (View(), nRet) == Load(old(View()), text, env)
    {
      var buffer := new char[CONFIGLINE_MAX](_ => '\0');
      var pos := 0;
      nRet := 0;
      assert text[0..] == text;
      while pos < |text|
        invariant pos <= |text| && nRet == 0
        invariant Load(View(), text[pos..], env) == Load(old(View()), text, env)
        decreases |text| - pos
      {
        ghost var start := pos;
        pos := FGets(buffer, text, pos);
        ghost var line := CString(text[start..pos]);
        Split(text, start, pos);
        var kind, name, value := ParseLine(buffer, line);
        match kind {
          case Skip =>
          case Missing =>
            return -1;
          case Found =>
            var n := StringAt(buffer, name, ReadLine(line).name);
            var v := StringAt(buffer, value, ReadLine(line).value);
            var ok := Assign(n, v, env);
            if !ok {
              return -1;
            }
        }
      }
    }

    static lemma Split(text: string, start: nat, pos: nat)
      requires start < |text| && pos == start + Chunk(text[start..], CONFIGLINE_MAX - 1)
      ensures text[start..][..Chunk(text[start..], CONFIGLINE_MAX - 1)] == text[start..pos]
      ensures text[start..][Chunk(text[start..], CONFIGLINE_MAX - 1)..] == text[pos..]
    {
    }
  }
}
