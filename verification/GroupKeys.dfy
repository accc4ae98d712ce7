/** Which rows share a group, and what the group is called. */
module GroupKeys {
  import opened Connections

  /** The grouped modes; Flat is a pass-through. */
  datatype ViewMode = ByInterface | ByContainer | ByProcess

  function Decimal(n: nat): (s: string)
    ensures s != ""
  {
    var digit := ["0", "1", "2", "3", "4", "5", "6", "7", "8", "9"][n % 10];
    if n < 10 then digit else Decimal(n / 10) + digit
  }

  /** Never empty, which is what lets an empty key mean "no such group". */
  function GroupKey(mode: ViewMode, c: Connection): (k: string)
    ensures k != ""
  {
    match mode
    case ByInterface => if c.iface == "" then "(unattributed)" else c.iface
    case ByContainer =>
      if c.container.id != "" then c.container.runtime + "/" + c.container.id
      else if c.container.name != "" then c.container.runtime + "/" + c.container.name
      else "(host)"
    case ByProcess =>
      if c.process.pid > 0 then Decimal(c.process.pid) + "/" + c.process.comm else "(unattributed)"
  }

  function GroupTitle(mode: ViewMode, c: Connection): string {
    match mode
    case ByInterface => if c.iface == "" then "(unattributed)" else c.iface
    case ByContainer =>
      if c.container.id == "" && c.container.name == "" then "(host)"
      else
        var shown := if c.container.name != "" then c.container.name
                     else if |c.container.id| <= 12 then c.container.id else c.container.id[..12];
        if c.container.runtime == "" then shown else c.container.runtime + ": " + shown
    case ByProcess =>
      if c.process.pid > 0 then
        (if c.process.comm == "" then "pid " + Decimal(c.process.pid) else c.process.comm)
        + "  [pid " + Decimal(c.process.pid) + "]"
      else "(unattributed)"
  }

  // ---- what the rows of a group have in common --------------------------------------

  /** Two ways of reading one text as "runtime/label": the slash that divides them may be any. */
  ghost predicate ReadAlike(runtime: string, text: string, runtime': string, text': string) {
    || (runtime == runtime' && text == text')
    || (exists mid :: runtime' == runtime + "/" + mid && text == mid + "/" + text')
    || (exists mid :: runtime == runtime' + "/" + mid && text' == mid + "/" + text)
  }

  /** What tells containers apart: the id, or the name where there is no id. */
  function Identification(i: ContainerInfo): string {
    if i.id != "" then i.id else i.name
  }

  /** When two flows belong to one group, in terms of the flows themselves. */
  ghost predicate BelongTogether(mode: ViewMode, a: Connection, b: Connection) {
    match mode
    case ByInterface =>
      || a.iface == b.iface
      || (a.iface == "" && b.iface == "(unattributed)") || (a.iface == "(unattributed)" && b.iface == "")
    case ByProcess =>
      if a.process.pid > 0 && b.process.pid > 0 then a.process.pid == b.process.pid && a.process.comm == b.process.comm
      else a.process.pid <= 0 && b.process.pid <= 0
    case ByContainer =>
      var x, y := Identification(a.container), Identification(b.container);
      if x != "" && y != "" then ReadAlike(a.container.runtime, x, b.container.runtime, y) else x == "" && y == ""
  }

  /** Two flows have the same key exactly when they belong together. */
  lemma SameKeyExactly(mode: ViewMode, a: Connection, b: Connection)
    ensures GroupKey(mode, a) == GroupKey(mode, b) <==> BelongTogether(mode, a, b)
  {
    match mode {
      case ByInterface =>
      case ByProcess =>
        if a.process.pid > 0 { AttributedKey(a.process); }
        if b.process.pid > 0 { AttributedKey(b.process); }
        if a.process.pid > 0 && b.process.pid > 0 { SameProcessKey(a.process, b.process); }
      case ByContainer =>
        var x, y := Identification(a.container), Identification(b.container);
        SlashTells(a.container.runtime, x);
        SlashTells(b.container.runtime, y);
        SplitTwice(a.container.runtime, x, b.container.runtime, y);
    }
  }

  // ---- texts with a slash -----------------------------------------------------------

  predicate HasSlash(s: string) { '/' in s }

  /** One text split at a slash in two ways: the earlier slash lies in the other's front part. */
  lemma SplitTwice(a: string, b: string, c: string, d: string)
    ensures a + "/" + b == c + "/" + d <==> ReadAlike(a, b, c, d)
  {
    if a + "/" + b == c + "/" + d {
      if |a| == |c| {
        assert a == (a + "/" + b)[..|a|] == c;
        assert b == (a + "/" + b)[|a| + 1..] == d;
      } else if |a| < |c| {
        SplitEarlier(a, b, c, d);
      } else {
        SplitEarlier(c, d, a, b);
      }
    }
    if mid :| c == a + "/" + mid && b == mid + "/" + d {
      assert a + "/" + (mid + "/" + d) == (a + "/" + mid) + "/" + d;
    }
    if mid :| a == c + "/" + mid && d == mid + "/" + b {
      assert c + "/" + (mid + "/" + b) == (c + "/" + mid) + "/" + b;
    }
  }

  lemma SplitEarlier(a: string, b: string, c: string, d: string)
    requires a + "/" + b == c + "/" + d && |a| < |c|
    ensures exists mid :: c == a + "/" + mid && b == mid + "/" + d
  {
    var all, mid := a + "/" + b, c[|a| + 1..];
    assert c == all[..|c|] && a == all[..|a|] && all[|a|] == '/';
    assert c == a + "/" + mid;
    assert b == all[|a| + 1..] && d == all[|c| + 1..];
    assert b == mid + "/" + d;
  }

  /** Without a slash in front there is only one way to read it. */
  lemma SplitOnce(a: string, b: string, c: string, d: string)
    requires !HasSlash(a) && !HasSlash(c)
    ensures ReadAlike(a, b, c, d) <==> a == c && b == d
  {
    forall mid: string ensures HasSlash(a + "/" + mid) && HasSlash(c + "/" + mid) {
      assert (a + "/" + mid)[|a|] == '/' && (c + "/" + mid)[|c|] == '/';
    }
  }

  /** A slash in the runtime's name can make two containers one group. */
  lemma SlashConfuses()
    ensures ReadAlike("a", "b/c", "a/b", "c") && "a" + "/" + "b/c" == "a/b" + "/" + "c"
  {
    assert "a/b" == "a" + "/" + "b" && "b/c" == "b" + "/" + "c";
  }

  predicate IsDigit(c: char) { '0' <= c <= '9' }

  lemma {:induction false} DecimalDigits(n: nat)
    ensures forall i :: 0 <= i < |Decimal(n)| ==> IsDigit(Decimal(n)[i])
  {
    if n >= 10 {
      DecimalDigits(n / 10);
    }
  }

  lemma {:induction false} DecimalInjective(m: nat, n: nat)
    requires Decimal(m) == Decimal(n)
    ensures m == n
  {
    var a, b := Decimal(m), Decimal(n);
    assert a[|a| - 1] == b[|b| - 1] && a[..|a| - 1] == b[..|b| - 1];
    LastDigit(m);
    LastDigit(n);
    if m >= 10 && n >= 10 {
      DecimalInjective(m / 10, n / 10);
    }
  }

  lemma LastDigit(n: nat)
    ensures var s := Decimal(n); s[|s| - 1] as int == '0' as int + n % 10
    ensures var s := Decimal(n); s[..|s| - 1] == if n < 10 then "" else Decimal(n / 10)
  {
  }

  lemma SameProcessKey(a: ProcessInfo, b: ProcessInfo)
    requires a.pid > 0 && b.pid > 0
    ensures Decimal(a.pid) + "/" + a.comm == Decimal(b.pid) + "/" + b.comm <==> a.pid == b.pid && a.comm == b.comm
  {
    DecimalDigits(a.pid);
    DecimalDigits(b.pid);
    SplitTwice(Decimal(a.pid), a.comm, Decimal(b.pid), b.comm);
    SplitOnce(Decimal(a.pid), a.comm, Decimal(b.pid), b.comm);
    if Decimal(a.pid) == Decimal(b.pid) {
      DecimalInjective(a.pid, b.pid);
    }
  }

  lemma AttributedKey(p: ProcessInfo)
    requires p.pid > 0
    ensures Decimal(p.pid) + "/" + p.comm != "(unattributed)"
  {
    DecimalDigits(p.pid);
    assert IsDigit((Decimal(p.pid) + "/" + p.comm)[0]);
  }

  lemma SlashTells(runtime: string, text: string)
    ensures runtime + "/" + text != "(host)"
  {
    assert (runtime + "/" + text)[|runtime|] == '/';
    assert forall i :: 0 <= i < |"(host)"| ==> "(host)"[i] != '/';
  }

  // ---- titles -------------------------------------------------------------------------

  /** By interface and by process, a group's title is the same whichever of its rows it is
      taken from. */
  lemma TitleFollowsKey(mode: ViewMode, a: Connection, b: Connection)
    requires !mode.ByContainer? && GroupKey(mode, a) == GroupKey(mode, b)
    ensures GroupTitle(mode, a) == GroupTitle(mode, b)
  {
    SameKeyExactly(mode, a, b);
  }

  /** A title that some flow with this key would bring. */
  ghost predicate TitleFits(mode: ViewMode, key: string, title: string) {
    exists c :: GroupKey(mode, c) == key && GroupTitle(mode, c) == title
  }

  /** So by interface and by process there is only one title that fits. */
  lemma OnlyTitle(mode: ViewMode, key: string, title: string, c: Connection)
    requires !mode.ByContainer? && TitleFits(mode, key, title) && GroupKey(mode, c) == key
    ensures title == GroupTitle(mode, c)
  {
    var c' :| GroupKey(mode, c') == key && GroupTitle(mode, c') == title;
    hide GroupKey, GroupTitle;
    TitleFollowsKey(mode, c, c');
  }

  /** How titles read. */
  lemma TitlesRead(c: Connection)
    ensures GroupTitle(ByProcess, c.(process := ProcessInfo(42, "curl", "", "", 0))) == "curl  [pid 42]"
    ensures GroupTitle(ByProcess, c.(process := ProcessInfo(7, "", "", "", 0))) == "pid 7  [pid 7]"
    ensures GroupTitle(ByInterface, c.(iface := "eth0")) == "eth0"
    ensures GroupTitle(ByInterface, c.(iface := "")) == "(unattributed)"
    ensures GroupTitle(ByProcess, c.(process := NO_PROCESS)) == "(unattributed)"
    ensures GroupTitle(ByContainer, c.(container := NO_CONTAINER)) == "(host)"
    ensures GroupTitle(ByContainer, c.(container := ContainerInfo("", "abc", ""))) == "abc"
  {
    assert Decimal(42) == Decimal(4) + "2" == "42" && Decimal(7) == "7";
  }

  /** By container it is not: rows that share an id may bring different names. */
  lemma ContainerTitleDrifts(c: Connection)
    ensures var a := c.(container := ContainerInfo("docker", "0123456789abcdef", ""));
            var b := c.(container := ContainerInfo("docker", "0123456789abcdef", "web"));
            && GroupKey(ByContainer, a) == GroupKey(ByContainer, b)
            && GroupTitle(ByContainer, a) == "docker: 0123456789ab" && GroupTitle(ByContainer, b) == "docker: web"
  {
  }
}
