/** The splitter that cuts a command text in place, from the right, and executes the pieces. */
module CommandParser {
  import opened Options

  type Text = seq<char>

  const COMMAND_SEP := '|'
  const PATH_SEP := '#'

  /** s is the C string at position `at` of the buffer. */
  ghost predicate CString(buf: array<char>, at: nat, s: Text)
    reads buf
  {
    && '\0' !in s && at + |s| < buf.Length
    && buf[at..at + |s|] == s && buf[at + |s|] == '\0'
  }

  // ---- what splitting means ----

  function Find(s: Text, c: char): (i: nat)
    ensures i <= |s| && c !in s[..i] && (i < |s| ==> s[i] == c)
  {
    if s == [] || s[0] == c then 0
    else
      assert s[..1 + Find(s[1..], c)] == [s[0]] + s[1..][..Find(s[1..], c)];
      1 + Find(s[1..], c)
  }

  /** The commands of a text, left to right. */
  function Pieces(s: Text): (r: seq<Text>)
    ensures |r| >= 1
    decreases |s|
  {
    var i := Find(s, COMMAND_SEP);
    if i == |s| then [s] else [s[..i]] + Pieces(s[i + 1..])
  }

  function Joined(pieces: seq<Text>): Text
    requires |pieces| >= 1
  {
    if |pieces| == 1 then pieces[0] else pieces[0] + [COMMAND_SEP] + Joined(pieces[1..])
  }

  /** The pieces are the text cut at its separators, and nothing else. */
  lemma {:induction false} PiecesJoin(s: Text)
    ensures Joined(Pieces(s)) == s
    ensures forall p | p in Pieces(s) :: COMMAND_SEP !in p
    decreases |s|
  {
    var i := Find(s, COMMAND_SEP);
    if i < |s| {
      PiecesJoin(s[i + 1..]);
      assert s == s[..i] + [COMMAND_SEP] + s[i + 1..];
      assert Pieces(s)[1..] == Pieces(s[i + 1..]);
    } else {
      assert s[..i] == s;
    }
  }

  lemma FindIn(a: Text, b: Text)
    requires COMMAND_SEP in a
    ensures Find(a + b, COMMAND_SEP) == Find(a, COMMAND_SEP) < |a|
    decreases |a|
  {
    if a[0] != COMMAND_SEP {
      assert (a + b)[1..] == a[1..] + b;
      assert a == [a[0]] + a[1..];
      FindIn(a[1..], b);
    }
  }

  /** Cutting at the last separator splits off the last command. */
  lemma {:induction false} LastPiece(a: Text, b: Text)
    requires COMMAND_SEP !in b
    ensures Pieces(a + [COMMAND_SEP] + b) == Pieces(a) + [b]
    decreases |a|
  {
    hide Pieces, Find;
    var s := a + [COMMAND_SEP] + b;
    var i := Find(a, COMMAND_SEP);
    PiecesStep(a);
    PiecesStep(s);
    if i < |a| {
      FirstCut(a, b, i);
      LastPiece(a[i + 1..], b);
      assert [a[..i]] + (Pieces(a[i + 1..]) + [b]) == [a[..i]] + Pieces(a[i + 1..]) + [b];
    } else {
      assert a[..i] == a;
      FindAt(a, b);
      assert s[..|a|] == a && s[|a| + 1..] == b;
      NoSeparator(b);
    }
  }

  lemma FirstCut(a: Text, b: Text, i: nat)
    requires i == Find(a, COMMAND_SEP) < |a|
    ensures var s := a + [COMMAND_SEP] + b;
            Find(s, COMMAND_SEP) == i && s[..i] == a[..i] && s[i + 1..] == a[i + 1..] + [COMMAND_SEP] + b
  {
    assert a[i] == COMMAND_SEP;
    FindIn(a, [COMMAND_SEP] + b);
    hide Find;
    Regrouped(a, [COMMAND_SEP], b);
    Regrouped(a[i + 1..], [COMMAND_SEP], b);
    CutInFirst(a, [COMMAND_SEP] + b, i);
  }

  lemma Regrouped<T>(a: seq<T>, b: seq<T>, c: seq<T>)
    ensures a + b + c == a + (b + c)
  {
  }

  lemma CutInFirst<T>(a: seq<T>, c: seq<T>, i: nat)
    requires i < |a|
    ensures (a + c)[..i] == a[..i] && (a + c)[i + 1..] == a[i + 1..] + c
  {
  }

  lemma PiecesStep(s: Text)
    ensures var i := Find(s, COMMAND_SEP); Pieces(s) == if i == |s| then [s] else [s[..i]] + Pieces(s[i + 1..])
  {
    hide Find;
  }

  lemma NoSeparator(b: Text)
    requires COMMAND_SEP !in b
    ensures Pieces(b) == [b]
  {
    assert Find(b, COMMAND_SEP) == |b|;
  }

  lemma FindAt(a: Text, b: Text)
    requires COMMAND_SEP !in a
    ensures Find(a + [COMMAND_SEP] + b, COMMAND_SEP) == |a|
  {
    var s := a + [COMMAND_SEP] + b;
    var i := Find(s, COMMAND_SEP);
    assert s[|a|] == COMMAND_SEP;
  }

  function Reversed<T>(s: seq<T>): seq<T> {
    if s == [] then [] else Reversed(s[1..]) + [s[0]]
  }

  // ---- executing ----

  /** What the shell is asked to do: fetch a file, run its update script, or restart everything. */
  datatype Order = Download(path: Text, url: Text) | Start(path: Text) | RestartAll

  /** The orders given for a command, one after the other, when the shell answers `shell`. An update consists of a
      path and, behind the first path separator, an address; without the separator nothing is ordered, and neither
      is for unknown commands. */
  function Orders(cmd: Text, shell: Order -> bool): seq<Order> {
    if "00" <= cmd then
      var i := 2 + Find(cmd[2..], PATH_SEP);
      if i < |cmd| then
        var download, start := Download(cmd[2..i], cmd[i + 1..]), Start(cmd[2..i]);
        if shell(download) then [download, start] else [download]
      else []
    else if "03" <= cmd then [RestartAll]
    else []
  }

  /** What carrying out a command answers. */
  predicate Succeeds(cmd: Text, shell: Order -> bool) {
    if "00" <= cmd then
      var i := 2 + Find(cmd[2..], PATH_SEP);
      i < |cmd| && shell(Download(cmd[2..i], cmd[i + 1..])) && shell(Start(cmd[2..i]))
    else
      "03" <= cmd && shell(RestartAll)
  }

  /** An update: the address behind the first number sign is fetched to the path in front of it, and the path's script
      is started exactly if that worked. */
  lemma UpdateCommand(path: Text, url: Text, shell: Order -> bool)
    requires '#' !in path
    ensures var cmd := "00" + path + "#" + url;
            && Orders(cmd, shell)
               == [Download(path, url)] + (if shell(Download(path, url)) then [Start(path)] else [])
            && (Succeeds(cmd, shell) <==> shell(Download(path, url)) && shell(Start(path)))
  {
    var cmd := "00" + path + "#" + url;
    assert cmd[2..] == path + (['#'] + url) && cmd[..2] == "00";
    var i := Find(cmd[2..], '#');
    assert cmd[2..][|path|] == '#';
    assert i == |path|;
    assert cmd[2..2 + i] == path && cmd[3 + i..] == url;
  }

  /** A restart, whatever follows its two digits. */
  lemma RestartCommand(rest: Text, shell: Order -> bool)
    ensures Orders("03" + rest, shell) == [RestartAll] && (Succeeds("03" + rest, shell) <==> shell(RestartAll))
  {
    var cmd := "03" + rest;
    assert cmd[..2] == "03" && cmd[1] == '3';
  }

  /** Every other command orders nothing and fails; so nothing is ordered but for these two. */
  lemma OtherCommand(cmd: Text, shell: Order -> bool)
    requires !("03" <= cmd) && !("00" <= cmd && '#' in cmd[2..])
    ensures Orders(cmd, shell) == [] && !Succeeds(cmd, shell)
  {
    if "00" <= cmd {
      FindInside(cmd);
      hide Find;
    }
  }

  /** Execution: it cuts an update command at its path separator. */
  method Execution(buf: array<char>, at: nat, n: nat, shell: Order -> bool, ghost cmd: Text)
    returns (ok: bool, ran: Text, orders: seq<Order>)
    requires CString(buf, at, cmd) && n == |cmd|
    modifies buf
    ensures ok == Succeeds(cmd, shell) && ran == cmd && orders == Orders(cmd, shell)
    ensures buf[..at] == old(buf[..at])
  {
    ran := buf[at..at + n];
    if "00" <= ran {
      ok, orders := Update(buf, at, n, shell, cmd);
    } else if "03" <= ran {
      orders := [RestartAll];
      ok := shell(RestartAll);
    } else {
      ok, orders := false, [];
    }
  }

  /** The buffer around a command whose character number i is overwritten. */
  lemma CommandCut(before: seq<char>, at: nat, cmd: Text, i: nat)
    requires at + |cmd| < |before| && before[at..at + |cmd|] == cmd && 2 <= i < |cmd|
    ensures var after := before[at + i := '\0'];
            && after[..at] == before[..at]
            && after[at + 2..at + i] == cmd[2..i] && after[at + i + 1..at + |cmd|] == cmd[i + 1..]
  {
    forall k | 0 <= k < |cmd|
      ensures before[at + k] == cmd[k]
    {
      assert before[at..at + |cmd|][k] == cmd[k];
    }
  }

  lemma FindInside(cmd: Text)
    requires "00" <= cmd
    ensures var i := 2 + Find(cmd[2..], PATH_SEP);
            && 2 <= i <= |cmd|
            && (i < |cmd| <==> PATH_SEP in cmd[2..])
  {
    var i := Find(cmd[2..], PATH_SEP);
    assert i == |cmd[2..]| ==> cmd[2..][..i] == cmd[2..];
    assert i < |cmd[2..]| ==> cmd[2..][i] in cmd[2..];
  }

  /** What an update comes to, in terms of where its path ends. */
  lemma UpdateSteps(cmd: Text, shell: Order -> bool)
    requires "00" <= cmd
    ensures var i := 2 + Find(cmd[2..], PATH_SEP);
            && 2 <= i <= |cmd|
            && (i == |cmd| ==> Orders(cmd, shell) == [] && !Succeeds(cmd, shell))
            && (i < |cmd| ==>
                  var download, start := Download(cmd[2..i], cmd[i + 1..]), Start(cmd[2..i]);
                  && Orders(cmd, shell) == (if shell(download) then [download] + [start] else [download])
                  && (Succeeds(cmd, shell) <==> shell(download) && shell(start)))
  {
    FindInside(cmd);
    hide Find;
  }

  /** The two C strings that the NUL makes of the command. */
  method CutCommand(buf: array<char>, at: nat, n: nat, i: nat, ghost cmd: Text) returns (path: Text, url: Text)
    requires CString(buf, at, cmd) && n == |cmd| && 2 <= i < n
    modifies buf
    ensures path == cmd[2..i] && url == cmd[i + 1..] && buf[..at] == old(buf[..at])
    ensures CString(buf, at + 2, path) && CString(buf, at + i + 1, url)
  {
    CommandCut(buf[..], at, cmd, i);
    assert buf[..][at..at + n] == cmd;
    buf[at + i] := '\0';
    path, url := buf[at + 2..at + i], buf[at + i + 1..at + n];
    ghost var after := buf[..];
    assert path == after[at + 2..at + i] && url == after[at + i + 1..at + n] && buf[..at] == after[..at];
  }

  /** The update command: the file is fetched, and its script run if that worked. */
  method Update(buf: array<char>, at: nat, n: nat, shell: Order -> bool, ghost cmd: Text)
    returns (ok: bool, orders: seq<Order>)
    requires CString(buf, at, cmd) && n == |cmd| && "00" <= cmd
    modifies buf
    ensures ok == Succeeds(cmd, shell) && orders == Orders(cmd, shell)
    ensures buf[..at] == old(buf[..at])
  {
    var text := buf[at..at + n];
    UpdateSteps(cmd, shell);
    assert text == cmd;
    hide Find, CString, Orders, Succeeds;
    var i := 2 + Find(text[2..], PATH_SEP);
    if i == n {
      return false, [];
    }
    var path, url := CutCommand(buf, at, n, i, cmd);
    orders := [Download(path, url)];
    ok := shell(Download(path, url));
    if ok {
      orders := orders + [Start(path)];
      ok := shell(Start(path));
    }
  }

  /** strrchr: the last separator of the C string, and the string's length. */
  method StrRChr(buf: array<char>, ghost s: Text) returns (pos: Option<nat>, n: nat)
    requires CString(buf, 0, s)
    ensures n == |s|
    ensures pos.None? ==> COMMAND_SEP !in s
    ensures pos.Some? ==> pos.value < |s| && s[pos.value] == COMMAND_SEP && COMMAND_SEP !in s[pos.value + 1..]
  {
    pos, n := None, 0;
    while buf[n] != '\0'
      invariant n <= |s| && CString(buf, 0, s)
      invariant pos.None? ==> COMMAND_SEP !in s[..n]
      invariant pos.Some? ==> pos.value < n && s[pos.value] == COMMAND_SEP && COMMAND_SEP !in s[pos.value + 1..n]
      decreases |s| - n
    {
      assert buf[..|s|][n] == s[n];
      if buf[n] == COMMAND_SEP {
        pos := Some(n);
      }
      n := n + 1;
    }
    assert s[..n] == s && (pos.Some? ==> s[pos.value + 1..n] == s[pos.value + 1..]);
  }

  ghost predicate AllSucceed(cmds: seq<Text>, shell: Order -> bool) {
    forall cmd | cmd in cmds :: Succeeds(cmd, shell)
  }

  /** One round: the text behind the last separator is cut off and executed. */
  method CutLast(buf: array<char>, p: nat, n: nat, shell: Order -> bool, ghost s: Text)
    returns (ok: bool, ran: Text, orders: seq<Order>)
    requires CString(buf, 0, s) && n == |s| && p < |s| && s[p] == COMMAND_SEP && COMMAND_SEP !in s[p + 1..]
    modifies buf
    ensures CString(buf, 0, s[..p])
    ensures ran == s[p + 1..] && ok == Succeeds(ran, shell) && Pieces(s) == Pieces(s[..p]) + [ran]
    ensures orders == Orders(ran, shell)
  {
    CutAt(buf[..], s, p);
    hide Pieces, Succeeds, Orders;
    buf[p] := '\0';
    ok, ran, orders := Execution(buf, p + 1, n - (p + 1), shell, s[p + 1..]);
    assert buf[..p] == buf[..p + 1][..p] && buf[p] == buf[..p + 1][p];
  }

  /** What the NUL at p leaves of the buffer. */
  lemma CutAt(before: seq<char>, s: Text, p: nat)
    requires |s| < |before| && before[..|s|] == s && p < |s| && s[p] == COMMAND_SEP && COMMAND_SEP !in s[p + 1..]
    ensures var after := before[p := '\0'];
      after[..p] == s[..p] && after[p + 1..|s|] == s[p + 1..] && after[|s|] == before[|s|]
    ensures Pieces(s) == Pieces(s[..p]) + [s[p + 1..]]
  {
    hide Pieces;
    LastPiece(s[..p], s[p + 1..]);
    Around(s, p);
    Slices(before, s, p, '\0');
  }

  lemma Around<T>(s: seq<T>, p: nat)
    requires p < |s|
    ensures s == s[..p] + [s[p]] + s[p + 1..]
  {
  }

  lemma Slices<T>(before: seq<T>, s: seq<T>, p: nat, x: T)
    requires p < |s| < |before| && before[..|s|] == s
    ensures var after := before[p := x];
      after[..p] == s[..p] && after[p + 1..|s|] == s[p + 1..]
  {
    var u, v := before[p := x][p + 1..|s|], s[p + 1..];
    assert forall i | 0 <= i < |s| :: before[i] == before[..|s|][i] == s[i];
    assert forall i | 0 <= i < |v| :: u[i] == v[i];
  }

  /** The orders for several commands, executed one after the other. */
  function AllOrders(cmds: seq<Text>, shell: Order -> bool): seq<Order> {
    if cmds == [] then [] else AllOrders(cmds[..|cmds| - 1], shell) + Orders(cmds[|cmds| - 1], shell)
  }

  /** Between two separators stands one command: its orders come after those of everything behind it. */
  lemma {:induction false} OrdersOf(a: Text, b: Text, shell: Order -> bool)
    requires '|' !in b
    ensures AllOrders(Reversed(Pieces(a + "|" + b)), shell)
         == Orders(b, shell) + AllOrders(Reversed(Pieces(a)), shell)
  {
    hide Pieces, Orders;
    LastPiece(a, b);
    LastFirst(Pieces(a), b);
    FirstOrders(b, Reversed(Pieces(a)), shell);
  }

  lemma OneCommand(b: Text, shell: Order -> bool)
    requires '|' !in b
    ensures AllOrders(Reversed(Pieces(b)), shell) == Orders(b, shell)
  {
    NoSeparator(b);
    hide Pieces, Orders;
    assert Reversed([b]) == [b];
    FirstOrders(b, [], shell);
    assert [b] + [] == [b];
  }

  lemma {:induction false} LastFirst<T>(s: seq<T>, x: T)
    ensures Reversed(s + [x]) == [x] + Reversed(s)
    decreases |s|
  {
    if s == [] {
      assert s + [x] == [x] && [x][1..] == [];
    } else {
      assert (s + [x])[1..] == s[1..] + [x];
      LastFirst(s[1..], x);
    }
  }

  lemma {:induction false} FirstOrders(cmd: Text, cmds: seq<Text>, shell: Order -> bool)
    ensures AllOrders([cmd] + cmds, shell) == Orders(cmd, shell) + AllOrders(cmds, shell)
    decreases |cmds|
  {
    hide Orders;
    var n := |cmds|;
    if n == 0 {
      assert [cmd] + cmds == [cmd] && [cmd][..0] == [];
    } else {
      assert ([cmd] + cmds)[..n] == [cmd] + cmds[..n - 1];
      FirstOrders(cmd, cmds[..n - 1], shell);
    }
  }

  lemma OneMore(done: seq<Text>, cmd: Text, s: seq<Text>, shell: Order -> bool)
    ensures AllSucceed([cmd] + done, shell) == (Succeeds(cmd, shell) && AllSucceed(done, shell))
    ensures Reversed([cmd] + done) == Reversed(done) + [cmd]
    ensures (s + [cmd]) + done == s + ([cmd] + done)
    ensures AllOrders(Reversed([cmd] + done), shell) == AllOrders(Reversed(done), shell) + Orders(cmd, shell)
  {
    var r := Reversed(done);
    assert (r + [cmd])[..|r|] == r;
    assert ([cmd] + done)[1..] == done;
    assert cmd in [cmd] + done && forall c | c in done :: c in [cmd] + done;
  }

  /** CommandParser: every command is executed exactly once, the last one first, whatever the others did; the answer
      is true exactly when all of them succeeded. */
  method CommandParser(buf: array<char>, shell: Order -> bool, ghost text: Text)
    returns (flag: bool, ran: seq<Text>, orders: seq<Order>)
    requires CString(buf, 0, text)
    modifies buf
    ensures ran == Reversed(Pieces(text))
    ensures flag == AllSucceed(Pieces(text), shell) && orders == AllOrders(ran, shell)
  {
    hide Pieces, Succeeds, Reversed, AllSucceed, Orders, AllOrders;
    ghost var s: Text, done: seq<Text> := text, [];
    Nothing(Pieces(text), shell);
    flag, ran, orders := true, [], [];
    var pos: Option<nat>, n: nat;
    pos, n := StrRChr(buf, s);
    while pos.Some?
      invariant CString(buf, 0, s) && n == |s|
      invariant pos.None? ==> COMMAND_SEP !in s
      invariant pos.Some? ==> pos.value < |s| && s[pos.value] == COMMAND_SEP && COMMAND_SEP !in s[pos.value + 1..]
      invariant Pieces(text) == Pieces(s) + done && ran == Reversed(done) && flag == AllSucceed(done, shell)
      invariant orders == AllOrders(ran, shell)
      decreases |s|
    {
      var ok, cmd, more := CutLast(buf, pos.value, n, shell, s);
      s := s[..pos.value];
      OneMore(done, cmd, Pieces(s), shell);
      done, ran, flag, orders := [cmd] + done, ran + [cmd], flag && ok, orders + more;
      pos, n := StrRChr(buf, s);
    }
    var ok, cmd, more := Execution(buf, 0, n, shell, s);
    NoSeparator(s);
    OneMore(done, cmd, [], shell);
    ran, flag, orders := ran + [cmd], flag && ok, orders + more;
  }

  lemma Nothing(s: seq<Text>, shell: Order -> bool)
    ensures s + [] == s && Reversed<Text>([]) == [] && AllSucceed([], shell)
    ensures AllOrders([], shell) == []
  {
  }
}
