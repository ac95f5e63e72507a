/**
 What the settings of a configuration file mean to somebody who writes one: each name has one field,
 names and words are read without regard to case, settings of different fields may come in any order,
 and a file that shows every field of a configuration is loaded as that configuration.
 */
module Settings {
  import opened ConfigText

  datatype Key = Daemonize | PidFile | Port | Bind | Timeout | LogLevel | LogFile | MaxClients | MaxThreads

  function Word(k: Key): string {
    match k
    case Daemonize => "daemonize"
    case PidFile => "pidfile"
    case Port => "port"
    case Bind => "bind"
    case Timeout => "timeout"
    case LogLevel => "loglevel"
    case LogFile => "logfile"
    case MaxClients => "maxclients"
    case MaxThreads => "maxthreads"
  }

  /** g, with the field of k as in h. */
  function Take(g: Settings, k: Key, h: Settings): Settings {
    match k
    case Daemonize => g.(daemonize := h.daemonize)
    case PidFile => g.(pidfile := h.pidfile)
    case Port => g.(port := h.port)
    case Bind => g.(bindaddr := h.bindaddr)
    case Timeout => g.(maxidletime := h.maxidletime)
    case LogLevel => g.(verbosity := h.verbosity)
    case LogFile => g.(logfile := h.logfile)
    case MaxClients => g.(maxclients := h.maxclients)
    case MaxThreads => g.(maxthreads := h.maxthreads)
  }

  lemma WordsAreLower(k: Key)
    ensures Lower(Word(k)) == Word(k)
  {
  }

  /**
   A setting touches the one field its name stands for, and what becomes of that field does not
   depend on any other; nor does it depend on the fields at all whether the setting is accepted.
   */
  lemma OnlyItsOwnField(g: Settings, other: Settings, k: Key, name: string, value: string, env: Env)
    requires Same(name, Word(k))
    ensures var (g', ok) := Apply(g, name, value, env);
            && g' == Take(g, k, g')
            && Apply(Take(other, k, g), name, value, env) == (Take(other, k, g'), ok)
  {
  }

  /** A name that stands for no field is passed over. */
  lemma UnknownIsIgnored(g: Settings, name: string, value: string, env: Env)
    requires forall k :: !Same(name, Word(k))
    ensures Apply(g, name, value, env) == (g, true)
  {
    assert !Same(name, Word(Daemonize)) && !Same(name, Word(PidFile)) && !Same(name, Word(Port));
    assert !Same(name, Word(Bind)) && !Same(name, Word(Timeout)) && !Same(name, Word(LogLevel));
    assert !Same(name, Word(LogFile)) && !Same(name, Word(MaxClients)) && !Same(name, Word(MaxThreads));
  }

  predicate IsNumber(k: Key) {
    k.Port? || k.Timeout? || k.MaxClients? || k.MaxThreads?
  }

  lemma WordsHaveNoCapitals(k: Key)
    ensures NoCapitals(Word(k))
  {
  }

  /**
   How a setting is read: names without regard to case, and so the words among the values; a name that
   stands for no field is passed over; a number is accepted exactly if the server can run with it.
   */
  lemma ReadLoosely(g: Settings, name: string, name': string, value: string, value': string, env: Env)
    requires Lower(name) == Lower(name')
    ensures Apply(g, name, value, env) == Apply(g, name', value, env)
    ensures Lower(value) == Lower(value') && (Same(name, "daemonize") || Same(name, "loglevel")) ==>
              Apply(g, name, value, env) == Apply(g, name', value', env)
    ensures forall k :: Same(name, Word(k)) <==> Alike(name, Word(k))
    ensures (forall k :: !Alike(name, Word(k))) ==> Apply(g, name, value, env) == (g, true)
    ensures forall k | Alike(name, Word(k)) && IsNumber(k) && Sound(g) ::
              Apply(g, name, value, env).1 <==> Sound(Apply(g, name, value, env).0)
  {
    forall k ensures Same(name, Word(k)) <==> Alike(name, Word(k)) {
      WordsHaveNoCapitals(k);
      SameIsAlike(name, Word(k));
    }
    if forall k :: !Same(name, Word(k)) {
      UnknownIsIgnored(g, name, value, env);
    }
  }

  /**
   The words among the values, in any case: yes and no; the four log levels, in their order; and stdout,
   which is accepted whatever files there are and leaves the log file as it was.  Any other word is
   refused, with nothing changed, but for the log file, where it is a name that must be possible to open.
   A number is stored even if it is then refused.
   */
  lemma WordsAreRead(g: Settings, k: Key, name: string, value: string, env: Env)
    requires Alike(name, Word(k))
    ensures var (g', ok) := Apply(g, name, value, env);
            match k
            case Daemonize =>
              if Alike(value, "yes") then ok && g'.daemonize == 1
              else if Alike(value, "no") then ok && g'.daemonize == 0
              else !ok && g' == g
            case LogLevel =>
              if Alike(value, "debug") then ok && g'.verbosity == 0
              else if Alike(value, "verbose") then ok && g'.verbosity == 1
              else if Alike(value, "notice") then ok && g'.verbosity == 2
              else if Alike(value, "warning") then ok && g'.verbosity == 3
              else !ok && g' == g
            case LogFile => if Alike(value, "stdout") then ok && g' == g else ok == env.canOpen(value) && g'.logfile == value
            case PidFile => ok && g'.pidfile == value
            case Bind => ok && g'.bindaddr == value
            case Port => g'.port == Atoi(value, env) && (ok <==> 0 <= g'.port <= 65535)
            case Timeout => g'.maxidletime == Atoi(value, env) && (ok <==> g'.maxidletime >= 0)
            case MaxClients => g'.maxclients == Atoi(value, env) && (ok <==> g'.maxclients >= 1)
            case MaxThreads => g'.maxthreads == Atoi(value, env) && (ok <==> g'.maxthreads >= 1)
  {
    WordsHaveNoCapitals(k);
    SameIsAlike(name, Word(k));
    SameIsAlike(value, "yes");
    SameIsAlike(value, "no");
    SameIsAlike(value, "debug");
    SameIsAlike(value, "verbose");
    SameIsAlike(value, "notice");
    SameIsAlike(value, "warning");
    SameIsAlike(value, "stdout");
  }

  /** No negative number is accepted, whether it is an int or not. */
  lemma NegativeIsRefused(g: Settings, k: Key, name: string, n: nat, env: Env)
    requires Alike(name, Word(k)) && IsNumber(k) && 1 <= n <= INT_MAX + 1
    ensures !Apply(g, name, "-" + Itoa(n), env).1
  {
    WordsHaveNoCapitals(k);
    SameIsAlike(name, Word(k));
    DigitsOfItoa(n);
    assert ("-" + Itoa(n))[1..] == Itoa(n);
  }

  lemma TakeCommutes(g: Settings, k: Key, h: Settings, k': Key, h': Settings)
    requires k != k'
    ensures Take(Take(g, k, h), k', h') == Take(Take(g, k', h'), k, h)
    ensures Take(Take(g, k', h'), k, g) == Take(g, k', h')
  {
  }

  /** Settings of different names can be exchanged. */
  lemma SettingsCommute(g: Settings, n1: string, v1: string, n2: string, v2: string, env: Env)
    requires Lower(n1) != Lower(n2)
    ensures var (g1, ok1) := Apply(g, n1, v1, env);
            var (g2, ok2) := Apply(g, n2, v2, env);
            && Apply(g1, n2, v2, env).1 == ok2 && Apply(g2, n1, v1, env).1 == ok1
            && Apply(g1, n2, v2, env).0 == Apply(g2, n1, v1, env).0
  {
    if forall k :: !Same(n1, Word(k)) {
      UnknownIsIgnored(g, n1, v1, env);
      UnknownIsIgnored(Apply(g, n2, v2, env).0, n1, v1, env);
    } else if forall k :: !Same(n2, Word(k)) {
      UnknownIsIgnored(g, n2, v2, env);
      UnknownIsIgnored(Apply(g, n1, v1, env).0, n2, v2, env);
    } else {
      var k1 :| Same(n1, Word(k1));
      var k2 :| Same(n2, Word(k2));
      KnownCommute(g, k1, n1, v1, k2, n2, v2, env);
    }
  }

  lemma KnownCommute(g: Settings, k1: Key, n1: string, v1: string, k2: Key, n2: string, v2: string, env: Env)
    requires Same(n1, Word(k1)) && Same(n2, Word(k2)) && k1 != k2
    ensures var (g1, ok1) := Apply(g, n1, v1, env);
            var (g2, ok2) := Apply(g, n2, v2, env);
            && Apply(g1, n2, v2, env) == (Take(g1, k2, g2), ok2)
            && Apply(g2, n1, v1, env) == (Take(g2, k1, g1), ok1)
            && Take(g1, k2, g2) == Take(g2, k1, g1)
  {
    var g1, g2 := Apply(g, n1, v1, env).0, Apply(g, n2, v2, env).0;
    OnlyItsOwnField(g, g1, k2, n2, v2, env);
    OnlyItsOwnField(g, g2, k1, n1, v1, env);
    OnlyItsOwnField(g, g, k1, n1, v1, env);
    OnlyItsOwnField(g, g, k2, n2, v2, env);
    TakeCommutes(g, k1, g1, k2, g2);
    TakeCommutes(g, k1, g1, k2, g);
    TakeCommutes(g, k2, g2, k1, g);
  }

  /** A line that carries a setting, written plainly. */
  ghost predicate Plain(n: string, v: string) {
    && IsName(n) && IsValue(v) && |n| + |v| < 1020
    && '\n' !in n && '\0' !in n && '\n' !in v && '\0' !in v
  }

  /** So two lines of a file may change places, whatever else is in it, unless they give the same name or one is refused. */
  lemma LinesCommute(g: Settings, n1: string, v1: string, n2: string, v2: string, rest: string, env: Env)
    requires Plain(n1, v1) && Plain(n2, v2) && Lower(n1) != Lower(n2)
    requires Apply(g, n1, v1, env).1 && Apply(g, n2, v2, env).1
    ensures Load(g, n1 + " " + v1 + "\n" + (n2 + " " + v2 + "\n" + rest), env)
         == Load(g, n2 + " " + v2 + "\n" + (n1 + " " + v1 + "\n" + rest), env)
  {
    SettingsCommute(g, n1, v1, n2, v2, env);
    TwoLines(g, n1, v1, n2, v2, rest, env);
    TwoLines(g, n2, v2, n1, v1, rest, env);
  }

  lemma TwoLines(g: Settings, n1: string, v1: string, n2: string, v2: string, rest: string, env: Env)
    requires Plain(n1, v1) && Plain(n2, v2)
    requires Apply(g, n1, v1, env).1 && Apply(Apply(g, n1, v1, env).0, n2, v2, env).1
    ensures Load(g, n1 + " " + v1 + "\n" + (n2 + " " + v2 + "\n" + rest), env)
         == Load(Apply(Apply(g, n1, v1, env).0, n2, v2, env).0, rest, env)
  {
    PlainLine(g, n1, v1, n2 + " " + v2 + "\n" + rest, env);
    PlainLine(Apply(g, n1, v1, env).0, n2, v2, rest, env);
  }

  // ---- writing a configuration down -------------------------------------------------------------

  /** A text a line can carry as a value. */
  ghost predicate IsText(v: string) {
    IsValue(v) && |v| < 1000 && '\n' !in v && '\0' !in v
  }

  /** h's field of k can be written down, or is empty and need not be. */
  ghost predicate Writable(h: Settings, k: Key, env: Env) {
    match k
    case Daemonize => 0 <= h.daemonize <= 1
    case PidFile => IsText(h.pidfile)
    case Port => 0 <= h.port <= 65535
    case Bind => h.bindaddr == "" || IsText(h.bindaddr)
    case Timeout => h.maxidletime >= 0
    case LogLevel => 0 <= h.verbosity <= 3
    case LogFile => h.logfile == "" || (IsText(h.logfile) && !Same(h.logfile, "stdout") && env.canOpen(h.logfile))
    case MaxClients => h.maxclients >= 1
    case MaxThreads => h.maxthreads >= 1
  }

  predicate Omitted(h: Settings, k: Key) {
    (k.Bind? && h.bindaddr == "") || (k.LogFile? && h.logfile == "")
  }

  function LevelWord(verbosity: int): string {
    if verbosity == 0 then "debug" else if verbosity == 1 then "verbose" else if verbosity == 2 then "notice" else "warning"
  }

  function Decimal(n: int): string {
    if n < 0 then "-" + Itoa(-n) else Itoa(n)
  }

  /** The value that stands for h's field. */
  function Show(h: Settings, k: Key): string {
    match k
    case Daemonize => if h.daemonize == 1 then "yes" else "no"
    case PidFile => h.pidfile
    case Port => Decimal(h.port)
    case Bind => h.bindaddr
    case Timeout => Decimal(h.maxidletime)
    case LogLevel => LevelWord(h.verbosity)
    case LogFile => h.logfile
    case MaxClients => Decimal(h.maxclients)
    case MaxThreads => Decimal(h.maxthreads)
  }

  function LineFor(h: Settings, k: Key): string {
    if Omitted(h, k) then "" else Word(k) + " " + Show(h, k) + "\n"
  }

  /** What a file is made of: lines that show a field, and comments and empty lines. */
  datatype Item = Field(k: Key) | Remark(line: string)

  ghost predicate IsRemark(line: string) {
    |line| < 1023 && '\n' !in line && '\0' !in line && Ignorable(line + "\n")
  }

  function Render(h: Settings, items: seq<Item>): string {
    if items == [] then "" else
      (match items[0]
       case Field(k) => LineFor(h, k)
       case Remark(line) => line + "\n")
      + Render(h, items[1..])
  }

  lemma ShowIsText(h: Settings, k: Key, env: Env)
    requires Writable(h, k, env) && !Omitted(h, k)
    ensures IsText(Show(h, k))
  {
    match k
    case Port => NumberIsText(h.port);
    case Timeout => NumberIsText(h.maxidletime);
    case MaxClients => NumberIsText(h.maxclients);
    case MaxThreads => NumberIsText(h.maxthreads);
    case _ =>
  }

  lemma NumberIsText(n: nat)
    requires n <= INT_MAX
    ensures IsText(Itoa(n))
  {
    Ten();
    ItoaLength(n, 10);
    NumberIsValue(n);
  }

  /** The value shown for a field is read as that field. */
  lemma ShownIsApplied(g: Settings, h: Settings, k: Key, env: Env)
    requires Writable(h, k, env) && !Omitted(h, k)
    ensures Apply(g, Word(k), Show(h, k), env) == (Take(g, k, h), true)
  {
    WordsAreLower(k);
    ValuesAreLower();
    match k
    case Port => AtoiOfItoa(h.port, env);
    case Timeout => AtoiOfItoa(h.maxidletime, env);
    case MaxClients => AtoiOfItoa(h.maxclients, env);
    case MaxThreads => AtoiOfItoa(h.maxthreads, env);
    case _ =>
  }

  lemma ValuesAreLower()
    ensures Lower("yes") == "yes" && Lower("no") == "no"
    ensures forall v | 0 <= v <= 3 :: Lower(LevelWord(v)) == LevelWord(v)
  {
  }

  lemma WordIsName(k: Key)
    ensures IsName(Word(k)) && |Word(k)| <= 10 && '\n' !in Word(k) && '\0' !in Word(k)
  {
  }

  lemma LineLoads(g: Settings, h: Settings, k: Key, rest: string, env: Env)
    requires Writable(h, k, env) && !Omitted(h, k)
    ensures Load(g, LineFor(h, k) + rest, env) == Load(Take(g, k, h), rest, env)
  {
    ShowIsText(h, k, env);
    WordIsName(k);
    PlainLine(g, Word(k), Show(h, k), rest, env);
    ShownIsApplied(g, h, k, env);
  }

  /** g already has h's field of k. */
  predicate Agrees(g: Settings, k: Key, h: Settings) {
    Take(g, k, h) == g
  }

  lemma AgreesAfter(g: Settings, h: Settings, k: Key, x: Key)
    requires x == k || Agrees(g, x, h)
    ensures Agrees(Take(g, k, h), x, h)
  {
  }

  lemma AgreeingIsEqual(g: Settings, h: Settings)
    requires forall k: Key :: Agrees(g, k, h)
    ensures g == h
  {
    assert Agrees(g, Daemonize, h) && Agrees(g, PidFile, h) && Agrees(g, Port, h);
    assert Agrees(g, Bind, h) && Agrees(g, Timeout, h) && Agrees(g, LogLevel, h);
    assert Agrees(g, LogFile, h) && Agrees(g, MaxClients, h) && Agrees(g, MaxThreads, h);
  }

  /**
   A configuration written to a file, its fields in any order and with comments and empty lines anywhere,
   is loaded back exactly; fields that are as in g already may be left out.
   */
  lemma {:induction false} RenderedIsLoaded(g: Settings, h: Settings, items: seq<Item>, env: Env)
    requires forall k | Field(k) in items :: Writable(h, k, env) && (Omitted(h, k) ==> Agrees(g, k, h))
    requires forall line | Remark(line) in items :: IsRemark(line)
    requires forall k: Key :: Field(k) in items || Agrees(g, k, h)
    ensures Load(g, Render(h, items), env) == (h, 0)
    decreases |items|
  {
    if items == [] {
      AgreeingIsEqual(g, h);
    } else {
      var rest := Render(h, items[1..]);
      match items[0]
      case Remark(line) =>
        IgnoredLine(g, line, rest, env);
        RenderedIsLoaded(g, h, items[1..], env);
      case Field(k) =>
        FieldLoads(g, h, k, rest, env);
        forall x: Key ensures Agrees(g, x, h) || x == k ==> Agrees(Take(g, k, h), x, h) {
          if Agrees(g, x, h) || x == k {
            AgreesAfter(g, h, k, x);
          }
        }
        RenderedIsLoaded(Take(g, k, h), h, items[1..], env);
    }
  }

  lemma FieldLoads(g: Settings, h: Settings, k: Key, rest: string, env: Env)
    requires Writable(h, k, env) && (Omitted(h, k) ==> Agrees(g, k, h))
    ensures Load(g, LineFor(h, k) + rest, env) == Load(Take(g, k, h), rest, env)
  {
    if Omitted(h, k) {
      assert LineFor(h, k) + rest == rest;
    } else {
      LineLoads(g, h, k, rest, env);
    }
  }

  /** The three numbers the dispatcher depends on, written to a file in decimal, are what the server runs with. */
  lemma LimitsRoundTrip(g: Settings, port: nat, maxclients: nat, maxthreads: nat, env: Env)
    requires port <= 65535 && 1 <= maxclients <= INT_MAX && 1 <= maxthreads <= INT_MAX
    ensures var h := g.(port := port, maxclients := maxclients, maxthreads := maxthreads);
            Load(g, Render(h, [Field(Port), Field(MaxClients), Field(MaxThreads)]), env) == (h, 0)
  {
    var h := g.(port := port, maxclients := maxclients, maxthreads := maxthreads);
    RenderedIsLoaded(g, h, [Field(Port), Field(MaxClients), Field(MaxThreads)], env);
  }

  /** What the server runs with if the file says nothing. */
  lemma EmptyFile(env: Env)
    ensures Load(Defaults, "", env) == (Settings(0, "/var/run/myepoll.pid", 8090, "", 0, 0, "", 10000, 10), 0)
  {
  }
}
