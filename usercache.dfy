/**
 * The server's cache of the last username seen from each IP address, and
 * the text of the `users.txt` file it keeps: one `ip,username` line per
 * entry.  The file is modelled as a string field; reading it arrives as a
 * parameter.
 */
module Users {
  import EngineWorld

  /** A cached username; lines without one load as JavaScript's `null` or `undefined`. */
  datatype UserName = Named(name: string) | NullName | UndefinedName

  datatype User = User(ip: string, username: UserName)

  /** The cache map: its entries and their insertion order, the order a Map iterates in. */
  datatype Table = Table(users: map<string, User>, order: seq<string>)
  {
    /** Each ip is listed once, exactly the cached ips are listed, and each entry is filed under its own ip. */
    ghost predicate WellFormed()
    {
      && EngineWorld.NoDup(order)
      && (forall ip :: ip in order <==> ip in users)
      && (forall ip | ip in users :: users[ip].ip == ip)
    }

    /** `Map.set`: a new key goes last, an existing key keeps its place and takes the new value. */
    function Set(u: User): (t: Table)
      ensures u.ip in t.users && t.users[u.ip] == u
      ensures forall ip | ip != u.ip :: ip in t.users <==> ip in users
      ensures forall ip | ip in users && ip != u.ip :: t.users[ip] == users[ip]
      ensures u.ip in users ==> t.order == order
      ensures u.ip !in users ==> t.order == order + [u.ip]
    {
      Table(users[u.ip := u], if u.ip in users then order else order + [u.ip])
    }
  }

  function EmptyTable(): Table
  {
    Table(map[], [])
  }

  /** Setting an entry keeps the table well formed; a new ip grows it by one, a known one leaves its size alone. */
  lemma SetKeepsWellFormed(t: Table, u: User)
    requires t.WellFormed()
    ensures t.Set(u).WellFormed()
    ensures u.ip !in t.users ==> |t.Set(u).users| == |t.users| + 1
    ensures u.ip in t.users ==> |t.Set(u).users| == |t.users|
  {
    var s := t.Set(u);
    if u.ip !in t.users {
      assert forall a, b :: 0 <= a < b < |s.order| ==> s.order[a] != s.order[b] by {
        forall a, b | 0 <= a < b < |s.order| ensures s.order[a] != s.order[b] {
          if b == |t.order| { assert s.order[a] in t.order; }
          else { assert s.order[a] == t.order[a] && s.order[b] == t.order[b]; }
        }
      }
    }
  }

  // ---------------------------------------------------------------------------
  // The file format

  function NameText(n: UserName): string
  {
    match n
    case Named(s) => s
    case NullName => "null"
    case UndefinedName => "undefined"
  }

  /** One line of the file, without its terminator. */
  function FormatLine(u: User): string
  {
    u.ip + "," + NameText(u.username)
  }

  function FormatAll(users: map<string, User>, order: seq<string>): (r: seq<string>)
    requires forall ip | ip in order :: ip in users
    ensures |r| == |order| && forall i | 0 <= i < |order| :: r[i] == FormatLine(users[order[i]])
  {
    if order == [] then [] else [FormatLine(users[order[0]])] + FormatAll(users, order[1..])
  }

  /** `join("\n")`. */
  function JoinLines(ls: seq<string>): string
  {
    if ls == [] then "" else if |ls| == 1 then ls[0] else ls[0] + "\n" + JoinLines(ls[1..])
  }

  /** The file `reloadCache` writes: the entries in insertion order, joined by newlines, with a newline after the last. */
  function Format(t: Table): string
    requires t.WellFormed()
  {
    JoinLines(FormatAll(t.users, t.order)) + "\n"
  }

  predicate IsBreak(c: char) { c == '\n' || c == '\r' }

  /** A line that holds neither a newline nor a carriage return. */
  predicate Unbroken(l: string) { forall k | 0 <= k < |l| :: !IsBreak(l[k]) }

  /** The index of the first line break, or the length when there is none. */
  function BreakAt(s: string): (i: nat)
    ensures i <= |s|
    ensures forall k | 0 <= k < i :: !IsBreak(s[k])
    ensures i < |s| ==> IsBreak(s[i])
  {
    if s == [] || IsBreak(s[0]) then 0 else BreakAt(s[1..]) + 1
  }

  /**
   * The lines the line reader yields: split at "\r\n", "\r" or "\n", a
   * final line without a terminator included, and nothing after a final
   * terminator.
   */
  function Lines(s: string): seq<string>
    decreases |s|
  {
    if s == [] then []
    else
      var i := BreakAt(s);
      if i == |s| then [s]
      else
        [s[..i]] + Lines(s[i + Skip(s, i)..])
  }

  /** How many characters the break at `i` takes: two for "\r\n", one otherwise. */
  function Skip(s: string, i: nat): (n: nat)
    requires i < |s|
    ensures 1 <= n && i + n <= |s|
  {
    if s[i] == '\r' && i + 1 < |s| && s[i + 1] == '\n' then 2 else 1
  }

  /** A text with a line break splits off its first line. */
  lemma {:induction false} LinesUnfold(s: string)
    requires BreakAt(s) < |s|
    ensures Lines(s) == [s[..BreakAt(s)]] + Lines(s[BreakAt(s) + Skip(s, BreakAt(s))..])
  {
  }

  /** The index of the first `c`, or the length when there is none. */
  function IndexOfChar(s: string, c: char): (i: nat)
    ensures i <= |s|
    ensures forall k | 0 <= k < i :: s[k] != c
    ensures i < |s| ==> s[i] == c
  {
    if s == [] || s[0] == c then 0 else IndexOfChar(s[1..], c) + 1
  }

  /**
   * A line of the file as `loadCache` reads it: the ip is the text before the
   * first comma; the name is the second comma-separated field, missing
   * (undefined) without a comma, and null for a line of at most one character.
   */
  function ParseLine(line: string): (u: User)
    ensures u.ip == line[..IndexOfChar(line, ',')]
    ensures |line| <= 1 ==> u.username == NullName
    ensures |line| > 1 && ',' !in line ==> u.username == UndefinedName
    ensures |line| > 1 && ',' in line ==>
      && u.username.Named? && ',' !in u.username.name
      && |u.ip| + 1 + |u.username.name| <= |line|
      && line[..|u.ip| + 1 + |u.username.name|] == u.ip + [','] + u.username.name
      && (|u.ip| + 1 + |u.username.name| == |line| || line[|u.ip| + 1 + |u.username.name|] == ',')
  {
    var i := IndexOfChar(line, ',');
    var ip := line[..i];
    if |line| <= 1 then User(ip, NullName)
    else if i == |line| then User(ip, UndefinedName)
    else
      var rest := line[i + 1..];
      User(ip, Named(rest[..IndexOfChar(rest, ',')]))
  }

  /** The table after loading `lines` into `t`, each line set under its ip in turn. */
  function LoadAll(t: Table, lines: seq<string>): Table
  {
    if lines == [] then t else LoadAll(t, lines[..|lines| - 1]).Set(ParseLine(lines[|lines| - 1]))
  }

  // ---------------------------------------------------------------------------
  // Round trip

  /** A field the file can carry unchanged. */
  predicate Plain(s: string)
  {
    forall k | 0 <= k < |s| :: s[k] != ',' && !IsBreak(s[k])
  }

  /** An entry whose line reads back as itself: a named user, no separator in either field, and not both fields empty. */
  predicate Storable(u: User)
  {
    u.username.Named? && Plain(u.ip) && Plain(u.username.name) && |u.ip| + |u.username.name| > 0
  }

  lemma ParseFormatLine(u: User)
    requires Storable(u)
    ensures ParseLine(FormatLine(u)) == u
  {
    var line := FormatLine(u);
    var name := u.username.name;
    assert line == u.ip + [','] + name;
    assert IndexOfChar(line, ',') == |u.ip| by {
      assert forall k | 0 <= k < |u.ip| :: line[k] == u.ip[k];
      IndexOfCharIs(line, ',', |u.ip|);
    }
    var rest := line[|u.ip| + 1..];
    assert rest == name;
    IndexOfCharIs(name, ',', |name|);
    assert line[..|u.ip|] == u.ip;
  }

  lemma IndexOfCharIs(s: string, c: char, i: nat)
    requires i <= |s| && (forall k | 0 <= k < i :: s[k] != c) && (i < |s| ==> s[i] == c)
    ensures IndexOfChar(s, c) == i
  {
  }

  /** A line without breaks followed by a newline splits off as one line. */
  lemma LinesCons(l: string, r: string)
    requires Unbroken(l)
    ensures Lines(l + "\n" + r) == [l] + Lines(r)
  {
    var s := l + "\n" + r;
    assert forall k | 0 <= k < |l| :: s[k] == l[k];
    BreakAtIs(s, |l|);
    assert s[..|l|] == l;
    assert s[|l| + 1..] == r;
  }

  lemma BreakAtIs(s: string, i: nat)
    requires i < |s| && (forall k | 0 <= k < i :: !IsBreak(s[k])) && IsBreak(s[i])
    ensures BreakAt(s) == i
  {
  }

  /** Joining break-free lines and ending them with a newline, then splitting, gives the lines back. */
  lemma {:induction false} LinesOfJoin(ls: seq<string>)
    requires |ls| > 0
    requires forall i | 0 <= i < |ls| :: Unbroken(ls[i])
    ensures Lines(JoinLines(ls) + "\n") == ls
  {
    if |ls| == 1 {
      assert JoinLines(ls) + "\n" == ls[0] + "\n" + "";
      LinesCons(ls[0], "");
      assert [ls[0]] == ls;
    } else {
      LinesOfJoin(ls[1..]);
      assert JoinLines(ls) + "\n" == ls[0] + "\n" + (JoinLines(ls[1..]) + "\n");
      LinesCons(ls[0], JoinLines(ls[1..]) + "\n");
    }
  }

  /** `l` holds exactly the first `n` entries of `t`, in `t`'s order and with `t`'s values. */
  ghost predicate Rebuilds(l: Table, t: Table, n: nat)
    requires n <= |t.order|
  {
    && l.order == t.order[..n]
    && (forall ip :: ip in l.users <==> ip in t.order[..n])
    && (forall ip | ip in l.users :: ip in t.users && l.users[ip] == t.users[ip])
  }

  /** Loading the first `n` formatted lines into an empty table rebuilds the table's first `n` entries. */
  lemma {:induction false} LoadPrefix(t: Table, n: nat)
    requires t.WellFormed() && n <= |t.order|
    requires forall ip | ip in t.users :: Storable(t.users[ip])
    ensures Rebuilds(LoadAll(EmptyTable(), FormatAll(t.users, t.order)[..n]), t, n)
  {
    if n > 0 {
      var ls := FormatAll(t.users, t.order);
      LoadPrefix(t, n - 1);
      var prev := LoadAll(EmptyTable(), ls[..n - 1]);
      var u := t.users[t.order[n - 1]];
      LoadSnoc(EmptyTable(), ls, n);
      ParseFormatLine(u);
      SetRebuildsNext(prev, t, n);
    }
  }

  /** Setting the `n`-th entry on a rebuild of the first `n - 1` entries rebuilds the first `n`. */
  lemma SetRebuildsNext(prev: Table, t: Table, n: nat)
    requires t.WellFormed() && 0 < n <= |t.order| && Rebuilds(prev, t, n - 1)
    ensures Rebuilds(prev.Set(t.users[t.order[n - 1]]), t, n)
  {
    TakeSnoc(t.order, n);
    NoDupLast(t.order, n);
  }

  /** Loading `n` lines is loading the first `n - 1` and then setting the entry parsed from the last. */
  lemma LoadSnoc(t: Table, lines: seq<string>, n: nat)
    requires 0 < n <= |lines|
    ensures LoadAll(t, lines[..n]) == LoadAll(t, lines[..n - 1]).Set(ParseLine(lines[n - 1]))
  {
    TakeTake(lines, n);
    assert lines[..n][n - 1] == lines[n - 1];
  }

  lemma TakeTake<T>(s: seq<T>, n: nat)
    requires 0 < n <= |s|
    ensures s[..n][..n - 1] == s[..n - 1]
  {
  }

  lemma TakeSnoc<T>(s: seq<T>, n: nat)
    requires 0 < n <= |s|
    ensures s[..n] == s[..n - 1] + [s[n - 1]]
  {
  }

  lemma NoDupLast(s: seq<string>, n: nat)
    requires EngineWorld.NoDup(s) && 0 < n <= |s|
    ensures s[n - 1] !in s[..n - 1]
  {
    assert forall a | 0 <= a < n - 1 :: s[..n - 1][a] == s[a];
  }

  /** A storable entry's line holds no line break. */
  lemma LineUnbroken(u: User)
    requires Storable(u)
    ensures Unbroken(FormatLine(u))
  {
    var l := FormatLine(u);
    forall k | 0 <= k < |l| ensures !IsBreak(l[k]) {
      if k < |u.ip| { assert l[k] == u.ip[k]; }
      else if k > |u.ip| { assert l[k] == u.username.name[k - |u.ip| - 1]; }
    }
  }

  /** The formatted lines of storable entries are free of line breaks. */
  lemma FormattedLinesUnbroken(t: Table)
    requires t.WellFormed()
    requires forall ip | ip in t.users :: Storable(t.users[ip])
    ensures var ls := FormatAll(t.users, t.order);
      forall i | 0 <= i < |ls| :: Unbroken(ls[i])
  {
    var ls := FormatAll(t.users, t.order);
    forall i | 0 <= i < |ls| ensures Unbroken(ls[i]) {
      LineUnbroken(t.users[t.order[i]]);
    }
  }

  lemma TakeAll<T>(s: seq<T>)
    ensures s[..|s|] == s
  {
  }

  /**
   * Writing a non-empty cache of storable entries and reading the file back
   * gives the same entries in the same order.
   */
  lemma LoadFormatRoundTrip(t: Table)
    requires t.WellFormed() && |t.order| > 0
    requires forall ip | ip in t.users :: Storable(t.users[ip])
    ensures LoadAll(EmptyTable(), Lines(Format(t))) == t
  {
    LinesOfFormat(t);
    LoadFormatted(t);
  }

  /** The lines of a written cache are exactly its formatted entries. */
  lemma {:induction false} LinesOfFormat(t: Table)
    requires t.WellFormed() && |t.order| > 0
    requires forall ip | ip in t.users :: Storable(t.users[ip])
    ensures Lines(Format(t)) == FormatAll(t.users, t.order)
  {
    var ls := FormatAll(t.users, t.order);
    FormattedLinesUnbroken(t);
    FormatIs(t);
    LinesOfJoinIs(Format(t), ls);
  }

  lemma FormatIs(t: Table)
    requires t.WellFormed()
    ensures Format(t) == JoinLines(FormatAll(t.users, t.order)) + "\n"
  {
  }

  lemma {:induction false} LinesOfJoinIs(s: string, ls: seq<string>)
    requires |ls| > 0 && s == JoinLines(ls) + "\n"
    requires forall i | 0 <= i < |ls| :: Unbroken(ls[i])
    ensures Lines(s) == ls
  {
    LinesOfJoin(ls);
  }

  /** Loading the formatted entries of a cache rebuilds that cache. */
  lemma LoadFormatted(t: Table)
    requires t.WellFormed()
    requires forall ip | ip in t.users :: Storable(t.users[ip])
    ensures LoadAll(EmptyTable(), FormatAll(t.users, t.order)) == t
  {
    var ls := FormatAll(t.users, t.order);
    var n := |t.order|;
    LoadPrefix(t, n);
    TakeAll(ls);
    TakeAll(t.order);
    SameTable(LoadAll(EmptyTable(), ls[..n]), t);
  }

  /** Two tables with the same order whose entries agree are equal. */
  lemma SameTable(a: Table, b: Table)
    requires b.WellFormed() && a.order == b.order
    requires forall ip :: ip in a.users <==> ip in b.order
    requires forall ip | ip in a.users :: a.users[ip] == b.users[ip]
    ensures a == b
  {
    assert a.users == b.users;
  }

  /** Rewriting an empty cache leaves a file that reads back as one blank entry with a null name. */
  lemma EmptyFileReadsBlankUser()
    ensures Format(EmptyTable()) == "\n"
    ensures LoadAll(EmptyTable(), Lines(Format(EmptyTable()))) == Table(map["" := User("", NullName)], [""])
  {
    assert Lines("\n") == [""] by { BreakAtIs("\n", 0); }
    assert ParseLine("") == User("", NullName);
    var blank := User("", NullName);
    assert LoadAll(EmptyTable(), [""]) == EmptyTable().Set(blank) by {
      assert [""][..0] == [];
    }
    assert EmptyTable().Set(blank) == Table(map["" := blank], [""]);
  }

  // ---------------------------------------------------------------------------
  // The cache

  class UserCache {
    var table: Table
    /** The contents of `users.txt`. */
    var file: string

    ghost predicate Valid()
      reads this
    {
      table.WellFormed()
    }

    /** A cache over an existing file, whose lines are loaded in order. */
    constructor (fileText: string)
      ensures Valid()
      ensures table == LoadAll(EmptyTable(), Lines(fileText)) && file == fileText
    {
      table := EmptyTable();
      file := fileText;
      new;
      LoadCache(fileText);
    }

    /** The loading loop: each line of the file is set under its ip, later lines for an ip winning. */
    method LoadCache(text: string)
      requires Valid()
      modifies this`table
      ensures Valid()
      ensures table == LoadAll(old(table), Lines(text))
    {
      var lines := Lines(text);
      var k := 0;
      while k < |lines|
        invariant k <= |lines| && Valid()
        invariant table == LoadAll(old(table), lines[..k])
      {
        var u := ParseLine(lines[k]);
        LoadSnoc(old(table), lines, k + 1);
        SetKeepsWellFormed(table, u);
        table := table.Set(u);
        k := k + 1;
      }
      assert lines[..k] == lines;
    }

    /**
     * Records the username from an ip: a new ip is added and its line
     * appended to the file; a known ip with another name is replaced and the
     * whole file rewritten; the same name again changes nothing.
     */
    method SaveUser(ip: string, username: string)
      requires Valid()
      modifies this
      ensures Valid()
      ensures ip !in old(table.users) ==>
        && table == old(table).Set(User(ip, Named(username)))
        && |table.users| == |old(table.users)| + 1
        && file == old(file) + FormatLine(User(ip, Named(username))) + "\n"
      ensures ip in old(table.users) && old(table.users[ip].username) != Named(username) ==>
        && table == old(table).Set(User(ip, Named(username)))
        && table.order == old(table.order) && |table.users| == |old(table.users)|
        && file == Format(table)
      ensures ip in old(table.users) && old(table.users[ip].username) == Named(username) ==>
        table == old(table) && file == old(file)
    {
      var u := User(ip, Named(username));
      if ip !in table.users {
        SetKeepsWellFormed(table, u);
        table := table.Set(u);
        file := file + FormatLine(u) + "\n";
      } else if table.users[ip].username != Named(username) {
        SetKeepsWellFormed(table, u);
        table := table.Set(u);
        file := Format(table);
      }
    }
  }

  /** Appending a break-free line and a newline to a text that ends a line adds exactly that line. */
  lemma {:induction false} LinesAppend(f: string, l: string)
    requires f == [] || f[|f| - 1] == '\n'
    requires Unbroken(l)
    ensures Lines(f + l + "\n") == Lines(f) + [l]
    decreases |f|
  {
    if f == [] {
      assert f + l + "\n" == l + "\n" + "";
      LinesCons(l, "");
    } else {
      var s := f + l + "\n";
      var i := BreakAt(f);
      var rest := f[i + Skip(f, i)..];
      assert s == f + (l + "\n");
      FirstLineOfPrefix(f, l + "\n", s);
      var tail := s[i + Skip(s, i)..];
      assert tail == rest + l + "\n";
      assert rest == [] || rest[|rest| - 1] == '\n';
      LinesAppend(rest, l);
      UnfoldAt(f, i, f[..i], rest);
      UnfoldAt(s, i, f[..i], tail);
      EngineWorld.AppendAssoc([f[..i]], Lines(rest), [l]);
    }
  }

  /** In a text that ends a line, the first line and its break are unaffected by what follows. */
  lemma {:induction false} FirstLineOfPrefix(f: string, r: string, s: string)
    requires f != [] && f[|f| - 1] == '\n' && s == f + r
    ensures var i := BreakAt(f);
      && BreakAt(s) == i && i < |f| && Skip(s, i) == Skip(f, i)
      && s[..i] == f[..i] && s[i + Skip(f, i)..] == f[i + Skip(f, i)..] + r
  {
    var i := BreakAt(f);
    assert IsBreak(f[|f| - 1]);
    assert forall k | 0 <= k <= i :: s[k] == f[k];
    BreakAtIs(s, i);
    assert i + 1 < |f| ==> s[i + 1] == f[i + 1];
  }

  /** `LinesUnfold` with the first line and the rest named. */
  lemma {:induction false} UnfoldAt(s: string, i: nat, head: string, tail: string)
    requires i == BreakAt(s) && i < |s| && head == s[..i] && tail == s[i + Skip(s, i)..]
    ensures Lines(s) == [head] + Lines(tail)
  {
    LinesUnfold(s);
  }

  /** A file that ends a line, with a storable entry's line appended, loads to what it loaded to with that entry set. */
  lemma AppendedLineLoads(t: Table, f: string, u: User)
    requires Storable(u)
    requires f == [] || f[|f| - 1] == '\n'
    ensures LoadAll(t, Lines(f + FormatLine(u) + "\n")) == LoadAll(t, Lines(f)).Set(u)
  {
    LineUnbroken(u);
    LinesAppend(f, FormatLine(u));
    ParseFormatLine(u);
    var ls := Lines(f);
    assert (ls + [FormatLine(u)])[..|ls|] == ls;
  }
}
