/** The shell's command parser and NUL-termination, against specification functions on the text of
    a line, and the round trip from command trees to text and back. */
module Shell {

  import opened Text

  const MAXARGS: int := 10

  /** A C string without its terminating NUL. */
  type CString = s: string | forall i :: 0 <= i < |s| ==> s[i] != '\0' witness ""

  // ---------- tokens ----------

  predicate IsSpace(c: char) {
    c == ' ' || c == '\t' || c == '\r' || c == '\n' || c == '\U{0B}'
  }

  predicate IsSymbol(c: char) {
    c == '<' || c == '|' || c == '>' || c == '&' || c == ';' || c == '(' || c == ')'
  }

  predicate WordChar(c: char) {
    !IsSpace(c) && !IsSymbol(c)
  }

  function Skip(s: string, i: int): (j: int)
    requires 0 <= i <= |s|
    ensures i <= j <= |s| && (j == |s| || !IsSpace(s[j]))
    decreases |s| - i
  {
    if i < |s| && IsSpace(s[i]) then Skip(s, i + 1) else i
  }

  function WordEnd(s: string, i: int): (j: int)
    requires 0 <= i <= |s|
    ensures i <= j <= |s|
    decreases |s| - i
  {
    if i < |s| && WordChar(s[i]) then WordEnd(s, i + 1) else i
  }

  lemma {:induction false} WordEndOk(s: string, i: int)
    requires 0 <= i <= |s|
    ensures var j := WordEnd(s, i); (j == |s| || !WordChar(s[j])) && forall k :: i <= k < j ==> WordChar(s[k])
    decreases |s| - i
  {
    if i < |s| && WordChar(s[i]) {
      WordEndOk(s, i + 1);
    }
  }

  /** A token: its kind ('a' for a word, '+' for >>, NUL at the end), where it begins and ends, and
      where the parser goes on. */
  datatype Token = Token(kind: char, q: int, eq: int, next: int)

  function GetTok(s: string, i: int): (t: Token)
    requires 0 <= i <= |s|
    ensures i <= t.q <= t.eq <= t.next <= |s|
    ensures t.kind == '\0' <==> t.q == |s|
    ensures t.kind != '\0' ==> t.q < t.eq
  {
    var q := Skip(s, i);
    if q == |s| then Token('\0', q, q, q)
    else if s[q] == '>' && q + 1 < |s| && s[q + 1] == '>' then Token('+', q, q + 2, Skip(s, q + 2))
    else if IsSymbol(s[q]) then Token(s[q], q, q + 1, Skip(s, q + 1))
    else Token('a', q, WordEnd(s, q + 1), Skip(s, WordEnd(s, q + 1)))
  }

  /** Whether the next character after white space is one of toks. */
  predicate PeekIs(s: string, i: int, toks: string)
    requires 0 <= i <= |s|
  {
    Skip(s, i) < |s| && s[Skip(s, i)] in toks
  }

  // ---------- commands ----------

  /** A word of the line, by position. */
  datatype Word = Word(start: int, end: int)

  datatype Mode = In | Out

  datatype Redirection = Redirection(file: Word, mode: Mode)

  datatype Cmd =
    | Exec(argv: seq<Word>)
    | Redir(cmd: Cmd, to: Redirection)
    | Pipe(left: Cmd, right: Cmd)
    | List(first: Cmd, rest: Cmd)
    | Back(inner: Cmd)

  datatype Reason = MissingFile | Syntax | MissingParen | TooManyArgs | Leftovers

  datatype Parsed = Ok(cmd: Cmd, index: int) | Panic(why: Reason)

  datatype Redirected = OkRedirs(list: seq<Redirection>, next: int) | PanicRedirs(reason: Reason)

  /** The redirections at i. */
  function Redirs(s: string, i: int): (r: Redirected)
    requires 0 <= i <= |s|
    ensures r.OkRedirs? ==> i <= r.next <= |s|
    decreases |s| - i
  {
    if !PeekIs(s, i, "<>") then OkRedirs([], Skip(s, i))
    else
      var t := GetTok(s, i);
      var f := GetTok(s, t.next);
      if f.kind != 'a' then PanicRedirs(MissingFile)
      else
        var rest := Redirs(s, f.next);
        if rest.PanicRedirs? then rest
        else OkRedirs([Redirection(Word(f.q, f.eq), if t.kind == '<' then In else Out)] + rest.list, rest.next)
  }

  /** A command inside redirections, the first innermost. */
  function Wrap(c: Cmd, rs: seq<Redirection>): (c': Cmd)
    decreases |rs|
  {
    if rs == [] then c else Wrap(Redir(c, rs[0]), rs[1..])
  }

  /** The words and redirections of a simple command from i on, after those in argv and rs. */
  function Args(s: string, argv: seq<Word>, rs: seq<Redirection>, i: int): (r: Parsed)
    requires 0 <= i <= |s|
    ensures r.Ok? ==> i <= r.index <= |s|
    decreases |s| - i
  {
    if PeekIs(s, i, "|)&;") then Ok(Wrap(Exec(argv), rs), Skip(s, i))
    else
      var t := GetTok(s, i);
      if t.kind == '\0' then Ok(Wrap(Exec(argv), rs), t.next)
      else if t.kind != 'a' then Panic(Syntax)
      else if |argv| + 1 >= MAXARGS then Panic(TooManyArgs)
      else
        var r := Redirs(s, t.next);
        if r.PanicRedirs? then Panic(r.reason)
        else Args(s, argv + [Word(t.q, t.eq)], rs + r.list, r.next)
  }

  function ParseExec(s: string, i: int): (r: Parsed)
    requires 0 <= i <= |s|
    ensures r.Ok? ==> i <= r.index <= |s|
    decreases |s| - i, 1
  {
    if PeekIs(s, i, "(") then ParseBlock(s, Skip(s, i))
    else
      var r := Redirs(s, i);
      if r.PanicRedirs? then Panic(r.reason) else Args(s, [], r.list, r.next)
  }

  function ParseBlock(s: string, i: int): (r: Parsed)
    requires 0 <= i <= |s| && PeekIs(s, i, "(")
    ensures r.Ok? ==> i <= r.index <= |s|
    decreases |s| - i, 0
  {
    var l := ParseLine(s, GetTok(s, i).next);
    if l.Panic? then l
    else if !PeekIs(s, l.index, ")") then Panic(MissingParen)
    else
      var r := Redirs(s, GetTok(s, l.index).next);
      if r.PanicRedirs? then Panic(r.reason) else Ok(Wrap(l.cmd, r.list), r.next)
  }

  function ParsePipe(s: string, i: int): (r: Parsed)
    requires 0 <= i <= |s|
    ensures r.Ok? ==> i <= r.index <= |s|
    decreases |s| - i, 2
  {
    var c := ParseExec(s, i);
    if c.Panic? || !PeekIs(s, c.index, "|") then Skipped(s, c)
    else
      var d := ParsePipe(s, GetTok(s, c.index).next);
      if d.Panic? then d else Ok(Pipe(c.cmd, d.cmd), d.index)
  }

  /** peek leaves the position after the white space. */
  function Skipped(s: string, c: Parsed): (r: Parsed)
    requires c.Ok? ==> 0 <= c.index <= |s|
    ensures r.Ok? <==> c.Ok?
    ensures r.Ok? ==> r.cmd == c.cmd && c.index <= r.index <= |s|
  {
    if c.Ok? then Ok(c.cmd, Skip(s, c.index)) else c
  }

  /** The ampersands after a command. */
  function Ands(s: string, c: Cmd, i: int): (r: Parsed)
    requires 0 <= i <= |s|
    ensures r.Ok? && i <= r.index <= |s|
    decreases |s| - i
  {
    if PeekIs(s, i, "&") then Ands(s, Back(c), GetTok(s, i).next) else Ok(c, Skip(s, i))
  }

  function ParseLine(s: string, i: int): (r: Parsed)
    requires 0 <= i <= |s|
    ensures r.Ok? ==> i <= r.index <= |s|
    decreases |s| - i, 3
  {
    var c := ParsePipe(s, i);
    if c.Panic? then c
    else
      var a := Ands(s, c.cmd, c.index);
      if !PeekIs(s, a.index, ";") then Skipped(s, a)
      else
        var d := ParseLine(s, GetTok(s, a.index).next);
        if d.Panic? then d else Ok(List(a.cmd, d.cmd), d.index)
  }

  /** A whole line: anything left over is an error. */
  function ParseCmd(s: string): (r: Parsed)
    ensures r.Ok? ==> r.index == |s|
  {
    var c := ParseLine(s, 0);
    if c.Panic? then c else if Skip(s, c.index) != |s| then Panic(Leftovers) else Ok(c.cmd, |s|)
  }

  // ---------- the parser ----------

  lemma {:induction false} SkipTwice(s: string, i: int)
    requires 0 <= i <= |s|
    ensures Skip(s, Skip(s, i)) == Skip(s, i) && GetTok(s, Skip(s, i)) == GetTok(s, i)
  {
  }

  /** Redirections in front of others. */
  function Before(list: seq<Redirection>, r: Redirected): (r': Redirected) {
    if r.OkRedirs? then OkRedirs(list + r.list, r.next) else r
  }

  class Parser {
    const s: CString
    var ps: int

    constructor (line: CString)
      ensures s == line && ps == 0
    {
      s, ps := line, 0;
    }

    predicate Valid()
      reads this
    {
      0 <= ps <= |s|
    }

    /** gettoken. */
    method GetToken() returns (t: Token)
      requires Valid()
      modifies this
      ensures Valid() && t == GetTok(s, old(ps)) && ps == t.next
    {
      SkipSpace();
      var q := ps;
      var kind := if ps < |s| then s[ps] else '\0';
      if kind == '\0' {
      } else if IsSymbol(kind) {
        ps := ps + 1;
        if kind == '>' && ps < |s| && s[ps] == '>' {
          kind := '+';
          ps := ps + 1;
        }
      } else {
        kind := 'a';
        TakeWord();
      }
      var eq := ps;
      SkipSpace();
      t := Token(kind, q, eq, ps);
    }

    method SkipSpace()
      requires Valid()
      modifies this
      ensures Valid() && ps == Skip(s, old(ps))
    {
      while ps < |s| && IsSpace(s[ps])
        invariant Valid() && Skip(s, ps) == Skip(s, old(ps))
      {
        ps := ps + 1;
      }
    }

    method TakeWord()
      requires Valid() && ps < |s| && WordChar(s[ps])
      modifies this
      ensures Valid() && ps == WordEnd(s, old(ps) + 1)
    {
      assert WordEnd(s, ps) == WordEnd(s, ps + 1);
      while ps < |s| && !IsSpace(s[ps]) && !IsSymbol(s[ps])
        invariant Valid() && WordEnd(s, ps) == WordEnd(s, old(ps))
      {
        ps := ps + 1;
      }
    }

    /** peek. */
    method Peek(toks: string) returns (r: bool)
      requires Valid()
      modifies this
      ensures Valid() && ps == Skip(s, old(ps)) && r == PeekIs(s, old(ps), toks)
      ensures GetTok(s, ps) == GetTok(s, old(ps)) && Skip(s, ps) == ps
    {
      SkipTwice(s, ps);
      SkipSpace();
      r := ps < |s| && s[ps] in toks;
    }

    method DoRedirs() returns (r: Redirected)
      requires Valid()
      modifies this
      ensures Valid() && r == Redirs(s, old(ps))
      ensures r.OkRedirs? ==> ps == r.next
    {
      var list: seq<Redirection> := [];
      while true
        invariant Valid() && old(ps) <= ps && Redirs(s, old(ps)) == Before(list, Redirs(s, ps))
        decreases |s| - ps
      {
        ghost var i := ps;
        var more := Peek("<>");
        if !more {
          return OkRedirs(list, ps);
        }
        var t := GetToken();
        var f := GetToken();
        if f.kind != 'a' {
          return PanicRedirs(MissingFile);
        }
        var x := Redirection(Word(f.q, f.eq), if t.kind == '<' then In else Out);
        RedirsStep(s, i, list, t, f, x);
        list := list + [x];
      }
    }

    method DoExec() returns (r: Parsed)
      requires Valid()
      modifies this
      ensures Valid() && r == ParseExec(s, old(ps))
      ensures r.Ok? ==> ps == r.index
      decreases |s| - ps, 1
    {
      ghost var i := ps;
      var block := Peek("(");
      if block {
        r := DoBlock();
        return;
      }
      SkipRedirs(s, i);
      var rs := DoRedirs();
      if rs.PanicRedirs? {
        return Panic(rs.reason);
      }
      r := DoArgs(rs.list);
    }

    method DoArgs(rs0: seq<Redirection>) returns (r: Parsed)
      requires Valid()
      modifies this
      ensures Valid() && r == Args(s, [], rs0, old(ps))
      ensures r.Ok? ==> ps == r.index
    {
      var argv: seq<Word>, rs := [], rs0;
      while true
        invariant Valid() && old(ps) <= ps && Args(s, argv, rs, ps) == Args(s, [], rs0, old(ps))
        decreases |s| - ps
      {
        var end := Peek("|)&;");
        if end {
          return Ok(Wrap(Exec(argv), rs), ps);
        }
        var t := GetToken();
        if t.kind == '\0' {
          return Ok(Wrap(Exec(argv), rs), ps);
        }
        if t.kind != 'a' {
          return Panic(Syntax);
        }
        argv := argv + [Word(t.q, t.eq)];
        if |argv| >= MAXARGS {
          return Panic(TooManyArgs);
        }
        var more := DoRedirs();
        if more.PanicRedirs? {
          return Panic(more.reason);
        }
        rs := rs + more.list;
      }
    }

    method DoBlock() returns (r: Parsed)
      requires Valid() && PeekIs(s, ps, "(")
      modifies this
      ensures Valid() && r == ParseBlock(s, old(ps))
      ensures r.Ok? ==> ps == r.index
      decreases |s| - ps, 0
    {
      var open := Peek("(");
      var _ := GetToken();
      r := DoLine();
      if r.Panic? {
        return;
      }
      var closed := Peek(")");
      if !closed {
        return Panic(MissingParen);
      }
      var _ := GetToken();
      var rs := DoRedirs();
      if rs.PanicRedirs? {
        return Panic(rs.reason);
      }
      return Ok(Wrap(r.cmd, rs.list), rs.next);
    }

    method DoPipe() returns (r: Parsed)
      requires Valid()
      modifies this
      ensures Valid() && r == ParsePipe(s, old(ps))
      ensures r.Ok? ==> ps == r.index
      decreases |s| - ps, 2
    {
      r := DoExec();
      if r.Panic? {
        return;
      }
      var more := Peek("|");
      if !more {
        return Ok(r.cmd, ps);
      }
      var _ := GetToken();
      var d := DoPipe();
      if d.Panic? {
        return d;
      }
      return Ok(Pipe(r.cmd, d.cmd), d.index);
    }

    method DoLine() returns (r: Parsed)
      requires Valid()
      modifies this
      ensures Valid() && r == ParseLine(s, old(ps))
      ensures r.Ok? ==> ps == r.index
      decreases |s| - ps, 3
    {
      r := DoPipe();
      if r.Panic? {
        return;
      }
      var cmd := DoAnds(r.cmd);
      var more := Peek(";");
      if !more {
        return Ok(cmd, ps);
      }
      var _ := GetToken();
      var d := DoLine();
      if d.Panic? {
        return d;
      }
      return Ok(List(cmd, d.cmd), d.index);
    }

    method DoAnds(c: Cmd) returns (cmd: Cmd)
      requires Valid()
      modifies this
      ensures Valid() && Ok(cmd, ps) == Ands(s, c, old(ps)) && old(ps) <= ps
    {
      cmd := c;
      while true
        invariant Valid() && old(ps) <= ps && Ands(s, cmd, ps) == Ands(s, c, old(ps))
        decreases |s| - ps
      {
        var more := Peek("&");
        if !more {
          return;
        }
        var _ := GetToken();
        cmd := Back(cmd);
      }
    }

    /** parsecmd, before the words are NUL-terminated. */
    method Parse() returns (r: Parsed)
      requires ps == 0
      modifies this
      ensures r == ParseCmd(s)
    {
      r := DoLine();
      if r.Panic? {
        return;
      }
      SkipSpace();
      if ps != |s| {
        return Panic(Leftovers);
      }
      return Ok(r.cmd, ps);
    }
  }

  lemma RedirsStep(s: string, i: int, list: seq<Redirection>, t: Token, f: Token, x: Redirection)
    requires 0 <= i <= |s| && PeekIs(s, i, "<>") && t == GetTok(s, i) && f == GetTok(s, t.next) && f.kind == 'a'
    requires x == Redirection(Word(f.q, f.eq), if t.kind == '<' then In else Out)
    ensures Before(list, Redirs(s, i)) == Before(list + [x], Redirs(s, f.next))
  {
    var rest := Redirs(s, f.next);
    if rest.OkRedirs? {
      assert list + ([x] + rest.list) == list + [x] + rest.list;
    }
  }

  lemma SkipRedirs(s: string, i: int)
    requires 0 <= i <= |s|
    ensures Redirs(s, Skip(s, i)) == Redirs(s, i)
  {
    SkipTwice(s, i);
  }

  // ---------- the words of a parsed command ----------

  /** A maximal run of word characters. */
  predicate WordOk(s: string, w: Word) {
    && 0 <= w.start < w.end <= |s|
    && (forall k :: w.start <= k < w.end ==> WordChar(s[k]))
    && (w.end == |s| || !WordChar(s[w.end]))
  }

  predicate CmdOk(s: string, c: Cmd) {
    match c
    case Exec(argv) => |argv| < MAXARGS && forall k :: 0 <= k < |argv| ==> WordOk(s, argv[k])
    case Redir(d, to) => CmdOk(s, d) && WordOk(s, to.file)
    case Pipe(l, r) => CmdOk(s, l) && CmdOk(s, r)
    case List(l, r) => CmdOk(s, l) && CmdOk(s, r)
    case Back(d) => CmdOk(s, d)
  }

  predicate FilesOk(s: string, rs: seq<Redirection>) {
    forall k :: 0 <= k < |rs| ==> WordOk(s, rs[k].file)
  }

  lemma TokenOk(s: string, i: int)
    requires 0 <= i <= |s| && GetTok(s, i).kind == 'a'
    ensures WordOk(s, Word(GetTok(s, i).q, GetTok(s, i).eq))
  {
    WordEndOk(s, Skip(s, i) + 1);
  }

  lemma {:induction false} RedirsOk(s: string, i: int)
    requires 0 <= i <= |s| && Redirs(s, i).OkRedirs?
    ensures FilesOk(s, Redirs(s, i).list)
    decreases |s| - i
  {
    if PeekIs(s, i, "<>") {
      var f := GetTok(s, GetTok(s, i).next);
      TokenOk(s, GetTok(s, i).next);
      RedirsOk(s, f.next);
    }
  }

  lemma {:induction false} WrapOk(s: string, c: Cmd, rs: seq<Redirection>)
    requires CmdOk(s, c) && FilesOk(s, rs)
    ensures CmdOk(s, Wrap(c, rs))
    decreases |rs|
  {
    if rs != [] {
      WrapOk(s, Redir(c, rs[0]), rs[1..]);
    }
  }

  lemma {:induction false} ArgsOk(s: string, argv: seq<Word>, rs: seq<Redirection>, i: int)
    requires 0 <= i <= |s| && CmdOk(s, Exec(argv)) && FilesOk(s, rs) && Args(s, argv, rs, i).Ok?
    ensures CmdOk(s, Args(s, argv, rs, i).cmd)
    decreases |s| - i
  {
    WrapOk(s, Exec(argv), rs);
    var t := GetTok(s, i);
    if !PeekIs(s, i, "|)&;") && t.kind != '\0' {
      TokenOk(s, i);
      RedirsOk(s, t.next);
      var r := Redirs(s, t.next);
      ArgsOk(s, argv + [Word(t.q, t.eq)], rs + r.list, r.next);
    }
  }

  lemma {:induction false} ExecOk(s: string, i: int)
    requires 0 <= i <= |s| && ParseExec(s, i).Ok?
    ensures CmdOk(s, ParseExec(s, i).cmd)
    decreases |s| - i, 1
  {
    if PeekIs(s, i, "(") {
      var j := Skip(s, i);
      SkipTwice(s, i);
      LineOk(s, GetTok(s, j).next);
      var l := ParseLine(s, GetTok(s, j).next);
      RedirsOk(s, GetTok(s, l.index).next);
      WrapOk(s, l.cmd, Redirs(s, GetTok(s, l.index).next).list);
    } else {
      RedirsOk(s, i);
      ArgsOk(s, [], Redirs(s, i).list, Redirs(s, i).next);
    }
  }

  lemma {:induction false} PipeOk(s: string, i: int)
    requires 0 <= i <= |s| && ParsePipe(s, i).Ok?
    ensures CmdOk(s, ParsePipe(s, i).cmd)
    decreases |s| - i, 2
  {
    ExecOk(s, i);
    var c := ParseExec(s, i);
    if PeekIs(s, c.index, "|") {
      PipeOk(s, GetTok(s, c.index).next);
    }
  }

  lemma {:induction false} AndsOk(s: string, c: Cmd, i: int)
    requires 0 <= i <= |s| && CmdOk(s, c)
    ensures CmdOk(s, Ands(s, c, i).cmd)
    decreases |s| - i
  {
    if PeekIs(s, i, "&") {
      AndsOk(s, Back(c), GetTok(s, i).next);
    }
  }

  /** Every word of a parsed command is a maximal run of word characters of the line. */
  lemma {:induction false} LineOk(s: string, i: int)
    requires 0 <= i <= |s| && ParseLine(s, i).Ok?
    ensures CmdOk(s, ParseLine(s, i).cmd)
    decreases |s| - i, 3
  {
    PipeOk(s, i);
    var c := ParsePipe(s, i);
    AndsOk(s, c.cmd, c.index);
    var a := Ands(s, c.cmd, c.index);
    if PeekIs(s, a.index, ";") {
      LineOk(s, GetTok(s, a.index).next);
    }
  }

  // ---------- NUL-termination ----------

  /** Position k is the end of a word of the command. */
  predicate IsEnd(c: Cmd, k: int) {
    match c
    case Exec(argv) => exists j :: 0 <= j < |argv| && argv[j].end == k
    case Redir(d, to) => IsEnd(d, k) || to.file.end == k
    case Pipe(l, r) => IsEnd(l, k) || IsEnd(r, k)
    case List(l, r) => IsEnd(l, k) || IsEnd(r, k)
    case Back(d) => IsEnd(d, k)
  }

  predicate HasWord(c: Cmd, w: Word) {
    match c
    case Exec(argv) => w in argv
    case Redir(d, to) => HasWord(d, w) || to.file == w
    case Pipe(l, r) => HasWord(l, w) || HasWord(r, w)
    case List(l, r) => HasWord(l, w) || HasWord(r, w)
    case Back(d) => HasWord(d, w)
  }

  /** nulterminate: writes a NUL at the end of every word, and nowhere else. */
  method Nulterminate(ghost s: CString, c: Cmd, buf: array<char>)
    requires CmdOk(s, c) && buf.Length == |s| + 1
    modifies buf
    ensures forall k :: 0 <= k < buf.Length ==> buf[k] == if IsEnd(c, k) then '\0' else old(buf[k])
    decreases c
  {
    match c
    case Exec(argv) =>
      var i := 0;
      while i < |argv|
        invariant 0 <= i <= |argv|
        invariant forall k :: 0 <= k < buf.Length ==> buf[k] == if EndsBefore(argv, i, k) then '\0' else old(buf[k])
      {
        buf[argv[i].end] := '\0';
        i := i + 1;
      }
    case Redir(d, to) =>
      Nulterminate(s, d, buf);
      buf[to.file.end] := '\0';
    case Pipe(l, r) =>
      Nulterminate(s, l, buf);
      Nulterminate(s, r, buf);
    case List(l, r) =>
      Nulterminate(s, l, buf);
      Nulterminate(s, r, buf);
    case Back(d) =>
      Nulterminate(s, d, buf);
  }

  predicate EndsBefore(argv: seq<Word>, i: int, k: int)
    requires 0 <= i <= |argv|
  {
    exists j :: 0 <= j < i && argv[j].end == k
  }

  /** No end of a word lies inside a word. */
  lemma {:induction false} EndIsBreak(s: string, c: Cmd, k: int)
    requires CmdOk(s, c) && IsEnd(c, k)
    ensures 0 <= k <= |s| && (k == |s| || !WordChar(s[k]))
    decreases c
  {
    match c
    case Exec(argv) =>
    case Redir(d, to) =>
      if IsEnd(d, k) { EndIsBreak(s, d, k); }
    case Pipe(l, r) =>
      if IsEnd(l, k) { EndIsBreak(s, l, k); } else { EndIsBreak(s, r, k); }
    case List(l, r) =>
      if IsEnd(l, k) { EndIsBreak(s, l, k); } else { EndIsBreak(s, r, k); }
    case Back(d) =>
      EndIsBreak(s, d, k);
  }

  lemma {:induction false} WordEnds(s: string, c: Cmd, w: Word)
    requires CmdOk(s, c) && HasWord(c, w)
    ensures WordOk(s, w) && IsEnd(c, w.end)
    decreases c
  {
    match c
    case Exec(argv) =>
    case Redir(d, to) =>
      if HasWord(d, w) { WordEnds(s, d, w); }
    case Pipe(l, r) =>
      if HasWord(l, w) { WordEnds(s, l, w); } else { WordEnds(s, r, w); }
    case List(l, r) =>
      if HasWord(l, w) { WordEnds(s, l, w); } else { WordEnds(s, r, w); }
    case Back(d) =>
      WordEnds(s, d, w);
  }

  /** The C string at position i of a buffer. */
  function ReadString(buf: seq<char>, i: int): (t: string)
    requires 0 <= i <= |buf|
    decreases |buf| - i
  {
    if i == |buf| || buf[i] == '\0' then "" else [buf[i]] + ReadString(buf, i + 1)
  }

  lemma {:induction false} ReadWord(buf: seq<char>, s: string, i: int, j: int)
    requires 0 <= i <= j < |buf| && j <= |s| && buf[j] == '\0'
    requires forall k :: i <= k < j ==> buf[k] == s[k] && s[k] != '\0'
    ensures ReadString(buf, i) == s[i..j]
    decreases j - i
  {
    if i < j {
      ReadWord(buf, s, i + 1, j);
      assert s[i..j] == [s[i]] + s[i + 1..j];
    }
  }

  /** After NUL-termination, the string at the start of every word of the command is that word. */
  lemma WordsReadBack(s: CString, c: Cmd, buf: seq<char>, w: Word)
    requires CmdOk(s, c) && HasWord(c, w) && |buf| == |s| + 1
    requires forall k :: 0 <= k < |buf| ==> buf[k] == if IsEnd(c, k) || k == |s| then '\0' else s[k]
    ensures WordOk(s, w) && ReadString(buf, w.start) == s[w.start..w.end]
  {
    WordEnds(s, c, w);
    forall k | w.start <= k < w.end
      ensures !IsEnd(c, k)
    {
      if IsEnd(c, k) {
        EndIsBreak(s, c, k);
      }
    }
    ReadWord(buf, s, w.start, w.end);
  }

  /** parsecmd: parses a line and NUL-terminates its words in place. */
  method ParseInPlace(line: CString, buf: array<char>) returns (r: Parsed)
    requires buf.Length == |line| + 1 && forall k :: 0 <= k < buf.Length ==>
      buf[k] == if k < |line| then line[k] else '\0'
    modifies buf
    ensures r == ParseCmd(line)
    ensures r.Ok? ==> forall w :: HasWord(r.cmd, w) ==>
      WordOk(line, w) &&
      ReadString(buf[..], w.start) == line[w.start..w.end]
  {
    var p := new Parser(line);
    r := p.Parse();
    if r.Ok? {
      LineOk(line, 0);
      Nulterminate(line, r.cmd, buf);
      forall w | HasWord(r.cmd, w)
        ensures WordOk(line, w) && ReadString(buf[..], w.start) == line[w.start..w.end]
      {
        WordsReadBack(line, r.cmd, buf[..], w);
      }
    }
  }

  // ---------- text for a tree ----------

  /** Commands with their words written out. */
  datatype Tree =
    | TExec(args: seq<string>)
    | TRedir(inner: Tree, file: string, mode: Mode)
    | TPipe(left: Tree, right: Tree)
    | TList(first: Tree, rest: Tree)
    | TBack(cmd: Tree)

  predicate IsWord(w: string) {
    |w| > 0 && forall i :: 0 <= i < |w| ==> WordChar(w[i]) && w[i] != '\0'
  }

  predicate Legal(t: Tree) {
    match t
    case TExec(args) => |args| < MAXARGS && forall k :: 0 <= k < |args| ==> IsWord(args[k])
    case TRedir(u, f, _) => Legal(u) && IsWord(f)
    case TPipe(l, r) => Legal(l) && Legal(r)
    case TList(l, r) => Legal(l) && Legal(r)
    case TBack(u) => Legal(u)
  }

  function Size(t: Tree): (n: nat)
    ensures n > 0
  {
    match t
    case TExec(_) => 1
    case TRedir(u, _, _) => Size(u) + 1
    case TPipe(l, r) => Size(l) + Size(r) + 1
    case TList(l, r) => Size(l) + Size(r) + 1
    case TBack(u) => Size(u) + 1
  }

  /** What the redirections are around, and the redirections, innermost first. */
  function Base(t: Tree): (b: Tree)
    ensures !b.TRedir? && Size(b) <= Size(t)
    ensures Legal(t) ==> Legal(b)
  {
    if t.TRedir? then Base(t.inner) else t
  }

  datatype To = To(file: string, mode: Mode)

  function Tos(t: Tree): (rs: seq<To>) {
    if t.TRedir? then Tos(t.inner) + [To(t.file, t.mode)] else []
  }

  function PrintArgs(args: seq<string>): (s: string) {
    if args == [] then "" else if |args| == 1 then args[0] else args[0] + (" " + PrintArgs(args[1..]))
  }

  function PrintTo(r: To): (s: string) {
    (if r.mode.In? then "<" else ">") + r.file
  }

  function PrintTos(rs: seq<To>): (s: string) {
    if rs == [] then "" else PrintTo(rs[0]) + PrintTos(rs[1..])
  }

  /** A pipe, a list or a background command, without parentheses. */
  function Core(t: Tree): (s: string)
    requires t.TPipe? || t.TList? || t.TBack?
    decreases Size(t), 0
  {
    match t
    case TPipe(l, r) => PrintExec(l) + ("|" + PrintPipe(r))
    case TList(l, r) => PrintBack(l) + (";" + PrintLine(r))
    case TBack(u) => PrintBack(u) + "&"
  }

  function PrintLine(t: Tree): (s: string)
    decreases Size(t), 2
  {
    if t.TPipe? || t.TList? || t.TBack? then Core(t) else PrintExec(t)
  }

  function PrintBack(t: Tree): (s: string)
    decreases Size(t), 2
  {
    if t.TPipe? || t.TBack? then Core(t) else PrintExec(t)
  }

  function PrintPipe(t: Tree): (s: string)
    decreases Size(t), 2
  {
    if t.TPipe? then Core(t) else PrintExec(t)
  }

  /** Parentheses go around a pipe, a list or a background command that stands where only a
      command with redirections may, and nowhere else. */
  function PrintExec(t: Tree): (s: string)
    decreases Size(t), 1
  {
    var b := Base(t);
    (if b.TExec? then PrintArgs(b.args) else "(" + (Core(b) + ")")) + PrintTos(Tos(t))
  }

  // ---------- what a printed text looks like ----------

  /** No NUL, and no white space in front. */
  predicate Tidy(s: string) {
    (forall i :: 0 <= i < |s| ==> s[i] != '\0') && (|s| > 0 ==> !IsSpace(s[0]))
  }

  lemma TidyArgs(args: seq<string>)
    requires forall k :: 0 <= k < |args| ==> IsWord(args[k])
    ensures Tidy(PrintArgs(args))
  {
  }

  lemma {:induction false} TidyTos(rs: seq<To>)
    requires forall k :: 0 <= k < |rs| ==> IsWord(rs[k].file)
    ensures Tidy(PrintTos(rs))
    decreases |rs|
  {
    if rs != [] {
      TidyTos(rs[1..]);
    }
  }

  lemma TidyJoin(s: string, c: char, t: string)
    requires Tidy(s) && Tidy(t) && IsSymbol(c) && c != '\0'
    ensures Tidy(s + ([c] + t))
  {
  }

  lemma {:induction false} LegalTos(t: Tree)
    requires Legal(t)
    ensures forall k :: 0 <= k < |Tos(t)| ==> IsWord(Tos(t)[k].file)
  {
    if t.TRedir? {
      LegalTos(t.inner);
    }
  }

  lemma {:induction false} TidyCore(t: Tree)
    requires Legal(t) && (t.TPipe? || t.TList? || t.TBack?)
    ensures Tidy(Core(t))
    decreases Size(t), 0
  {
    match t
    case TPipe(l, r) =>
      TidyExec(l);
      TidyLine(r);
      TidyJoin(PrintExec(l), '|', PrintPipe(r));
    case TList(l, r) =>
      TidyLine(l);
      TidyLine(r);
      TidyJoin(PrintBack(l), ';', PrintLine(r));
    case TBack(u) =>
      TidyLine(u);
      assert PrintBack(u) + (['&'] + "") == PrintBack(u) + "&";
      TidyJoin(PrintBack(u), '&', "");
  }

  lemma {:induction false} TidyLine(t: Tree)
    requires Legal(t)
    ensures Tidy(PrintLine(t)) && Tidy(PrintBack(t)) && Tidy(PrintPipe(t))
    decreases Size(t), 2
  {
    TidyExec(t);
    if t.TPipe? || t.TList? || t.TBack? {
      TidyCore(t);
    }
  }

  lemma {:induction false} TidyExec(t: Tree)
    requires Legal(t)
    ensures Tidy(PrintExec(t))
    decreases Size(t), 1
  {
    var b := Base(t);
    LegalTos(t);
    TidyTos(Tos(t));
    if b.TExec? {
      TidyArgs(b.args);
    } else {
      TidyCore(b);
    }
  }

  // ---------- parsing a printed text ----------

  predicate Denotes(s: string, c: Cmd, t: Tree)
    decreases c
  {
    match c
    case Exec(argv) => t.TExec? && |argv| == |t.args| && forall k :: 0 <= k < |argv| ==> Spells(s, argv[k], t.args[k])
    case Redir(d, to) => t.TRedir? && Denotes(s, d, t.inner) && Spells(s, to.file, t.file) && to.mode == t.mode
    case Pipe(l, r) => t.TPipe? && Denotes(s, l, t.left) && Denotes(s, r, t.right)
    case List(l, r) => t.TList? && Denotes(s, l, t.first) && Denotes(s, r, t.rest)
    case Back(d) => t.TBack? && Denotes(s, d, t.cmd)
  }

  predicate Spells(s: string, w: Word, text: string) {
    0 <= w.start <= w.end <= |s| && s[w.start..w.end] == text
  }

  predicate SpellsTos(s: string, list: seq<Redirection>, rs: seq<To>) {
    |list| == |rs| && forall k :: 0 <= k < |rs| ==> Spells(s, list[k].file, rs[k].file) && list[k].mode == rs[k].mode
  }

  /** What may follow a command. */
  predicate Stop(s: string, j: int) {
    0 <= j <= |s| && (j == |s| || s[j] == '|' || s[j] == '&' || s[j] == ';' || s[j] == ')')
  }

  /** A word may not go on at j, nor may there be white space. */
  predicate Break(s: string, j: int) {
    0 <= j <= |s| && (j == |s| || IsSymbol(s[j]))
  }

  lemma {:induction false} WordEndIs(s: string, i: int, w: string, k: int)
    requires Occurs(s, i, w) && IsWord(w) && 0 <= k <= |w| && (i + |w| == |s| || !WordChar(s[i + |w|]))
    ensures WordEnd(s, i + k) == i + |w|
    decreases |w| - k
  {
    if k < |w| {
      OccursAt(s, i, w, k);
      WordEndIs(s, i, w, k + 1);
    }
  }

  lemma WordTok(s: string, i: int, w: string, j: int)
    requires Occurs(s, i, w) && IsWord(w) && j == i + |w| && (j == |s| || !WordChar(s[j]))
    ensures GetTok(s, i) == Token('a', i, j, Skip(s, j)) && Skip(s, i) == i < |s| && WordChar(s[i])
    ensures Spells(s, Word(i, j), w)
  {
    OccursAt(s, i, w, 0);
    WordEndIs(s, i, w, 1);
  }

  lemma SymbolTok(s: string, i: int, c: char)
    requires 0 <= i < |s| && s[i] == c && IsSymbol(c)
    requires i + 1 == |s| || (!IsSpace(s[i + 1]) && (c == '>' ==> s[i + 1] != '>'))
    ensures Skip(s, i) == i && GetTok(s, i) == Token(c, i, i + 1, i + 1)
  {
  }

  lemma {:induction false} RedirsPrint(s: string, i: int, rs: seq<To>, text: string, j: int)
    requires (forall k :: 0 <= k < |rs| ==> IsWord(rs[k].file)) && text == PrintTos(rs)
    requires Occurs(s, i, text) && j == i + |text| && Stop(s, j)
    ensures var r := Redirs(s, i); r.OkRedirs? && r.next == j && SpellsTos(s, r.list, rs)
    ensures Break(s, i)
    decreases |rs|
  {
    if rs == [] {
      assert !PeekIs(s, i, "<>") && Skip(s, i) == i;
    } else {
      var head, tail := PrintTo(rs[0]), PrintTos(rs[1..]);
      var m := i + |head|;
      OccursSplit(s, i, head, tail, m, text);
      RedirsPrint(s, m, rs[1..], tail, j);
      ToPrint(s, i, rs[0], m);
    }
  }

  /** One redirection before others. */
  lemma ToPrint(s: string, i: int, r: To, m: int)
    requires IsWord(r.file) && Occurs(s, i, PrintTo(r)) && m == i + |PrintTo(r)| && Break(s, m)
    ensures Break(s, i) && i < m <= |s|
    ensures var x := Redirection(Word(i + 1, m), r.mode);
      Spells(s, x.file, r.file) && Redirs(s, i) == Before([x], Redirs(s, m))
  {
    var mark := if r.mode.In? then "<" else ">";
    OccursSplit(s, i, mark, r.file, i + 1, PrintTo(r));
    OccursAt(s, i, mark, 0);
    WordTok(s, i + 1, r.file, m);
    SymbolTok(s, i, mark[0]);
    assert PeekIs(s, i, "<>") && Skip(s, m) == m;
  }

  predicate SpellsArgs(s: string, argv: seq<Word>, args: seq<string>) {
    |argv| == |args| && forall k :: 0 <= k < |args| ==> Spells(s, argv[k], args[k])
  }

  lemma ArgsStop(s: string, argv: seq<Word>, rs: seq<Redirection>, j: int)
    requires Stop(s, j)
    ensures Args(s, argv, rs, j) == Ok(Wrap(Exec(argv), rs), j)
  {
  }

  /** One more word, with what follows it. */
  lemma ArgsNext(s: string, argv: seq<Word>, rs: seq<Redirection>, i: int, e: int, n: int, list: seq<Redirection>,
      m: int)
    requires 0 <= i < |s| && Skip(s, i) == i && WordChar(s[i]) && GetTok(s, i) == Token('a', i, e, n) &&
      |argv| + 1 < MAXARGS
    requires Redirs(s, n) == OkRedirs(list, m)
    ensures Args(s, argv, rs, i) == Args(s, argv + [Word(i, e)], rs + list, m)
  {
    assert !PeekIs(s, i, "|)&;");
  }

  lemma {:induction false} ArgsPrint(s: string, i: int, args: seq<string>, at: string, m: int, rs: seq<To>,
      rt: string, j: int, argv0: seq<Word>, rs0: seq<Redirection>)
    returns (argv: seq<Word>, list: seq<Redirection>)
    requires |args| > 0 && |argv0| + |args| < MAXARGS && (forall k :: 0 <= k < |args| ==> IsWord(args[k]))
    requires at == PrintArgs(args) && Occurs(s, i, at) && m == i + |at|
    requires (forall k :: 0 <= k < |rs| ==> IsWord(rs[k].file)) && rt == PrintTos(rs) && Occurs(s, m, rt) &&
      j == m + |rt| && Stop(s, j)
    ensures ArgsTake(s, i, argv0, argv, rs0, list, j) && SpellsArgs(s, argv, args) && SpellsTos(s, list, rs)
    decreases |args|
  {
    if |args| == 1 {
      argv, list := OnlyArg(s, i, args, m, rs, rt, j, argv0, rs0);
    } else {
      var tail := args[1..];
      var rest, e := PrintArgs(tail), i + |args[0]|;
      var n, w := e + 1, Word(i, e);
      var argv1, argv2 := argv0 + [w], [];
      PrintArgsIs(tail);
      FirstArg(s, i, args[0], at, rest, e, n, argv0, argv1, rs0);
      argv2, list := ArgsPrint(s, n, tail, rest, m, rs, rt, j, argv1, rs0);
      ConsArg(s, i, e, n, argv0, argv1, argv2, args, tail, rs0, list, j);
      argv := [w] + argv2;
    }
  }

  lemma OnlyArg(s: string, i: int, args: seq<string>, m: int, rs: seq<To>, rt: string, j: int, argv0: seq<Word>,
      rs0: seq<Redirection>)
    returns (argv: seq<Word>, list: seq<Redirection>)
    requires |args| == 1 && |argv0| + 1 < MAXARGS && IsWord(args[0]) && Occurs(s, i, args[0]) && m == i + |args[0]|
    requires (forall k :: 0 <= k < |rs| ==> IsWord(rs[k].file)) && rt == PrintTos(rs) && Occurs(s, m, rt) &&
      j == m + |rt| && Stop(s, j)
    ensures ArgsTake(s, i, argv0, argv, rs0, list, j) && SpellsArgs(s, argv, args) && SpellsTos(s, list, rs)
  {
    argv := [Word(i, m)];
    assert args == [args[0]];
    list := LastArg(s, i, args[0], m, rs, rt, j, argv0, rs0);
  }

  /** The words from i on, after argv0, are argv, and their redirections list; the command ends at j. */
  predicate ArgsTake(s: string, i: int, argv0: seq<Word>, argv: seq<Word>, rs0: seq<Redirection>,
      list: seq<Redirection>, j: int) {
    0 <= i <= |s| && Args(s, argv0, rs0, i) == Ok(Wrap(Exec(argv0 + argv), rs0 + list), j)
  }

  lemma ConsArg(s: string, i: int, e: int, n: int, argv0: seq<Word>, argv1: seq<Word>, argv: seq<Word>,
      args: seq<string>, tail: seq<string>, rs0: seq<Redirection>, list: seq<Redirection>, j: int)
    requires |args| > 0 && tail == args[1..] && argv1 == argv0 + [Word(i, e)]
    requires Spells(s, Word(i, e), args[0]) && SpellsArgs(s, argv, tail) && 0 <= i <= e
    requires ArgsTake(s, n, argv1, argv, rs0, list, j) && Args(s, argv0, rs0, i) == Args(s, argv1, rs0, n)
    ensures ArgsTake(s, i, argv0, [Word(i, e)] + argv, rs0, list, j) && SpellsArgs(s, [Word(i, e)] + argv, args)
  {
    assert argv1 + argv == argv0 + ([Word(i, e)] + argv);
  }

  lemma LastArg(s: string, i: int, arg: string, m: int, rs: seq<To>, rt: string, j: int, argv0: seq<Word>,
      rs0: seq<Redirection>)
    returns (list: seq<Redirection>)
    requires |argv0| + 1 < MAXARGS && IsWord(arg) && Occurs(s, i, arg) && m == i + |arg| && 0 <= i
    requires (forall k :: 0 <= k < |rs| ==> IsWord(rs[k].file)) && rt == PrintTos(rs) && Occurs(s, m, rt) &&
      j == m + |rt| && Stop(s, j)
    ensures ArgsTake(s, i, argv0, [Word(i, m)], rs0, list, j) && SpellsArgs(s, [Word(i, m)], [arg]) &&
      SpellsTos(s, list, rs)
  {
    RedirsPrint(s, m, rs, rt, j);
    list := Redirs(s, m).list;
    WordTok(s, i, arg, m);
    ArgsNext(s, argv0, rs0, i, m, m, list, j);
    ArgsStop(s, argv0 + [Word(i, m)], rs0 + list, j);
  }

  /** A word, a space, and more words. */
  lemma FirstArg(s: string, i: int, arg: string, at: string, rest: string, e: int, n: int, argv0: seq<Word>,
      argv1: seq<Word>, rs0: seq<Redirection>)
    requires |argv0| + 1 < MAXARGS && IsWord(arg) && |rest| > 0 && WordChar(rest[0])
    requires at == arg + (" " + rest) && Occurs(s, i, at) && e == i + |arg| && n == e + 1
    requires argv1 == argv0 + [Word(i, e)]
    ensures 0 <= i && 0 <= n <= |s| && Args(s, argv0, rs0, i) == Args(s, argv1, rs0, n)
    ensures Occurs(s, n, rest) && i + |at| == n + |rest| && Spells(s, Word(i, e), arg)
  {
    ArgSplit(s, i, arg, at, rest, e);
    WordTok(s, i, arg, e);
    assert Redirs(s, n) == OkRedirs([], n) by {
      assert !PeekIs(s, n, "<>");
    }
    ArgsNext(s, argv0, rs0, i, e, n, [], n);
    assert rs0 + [] == rs0;
  }

  lemma ArgSplit(s: string, i: int, arg: string, at: string, rest: string, e: int)
    requires at == arg + (" " + rest) && Occurs(s, i, at) && e == i + |arg| && |rest| > 0 && WordChar(rest[0])
    ensures Occurs(s, i, arg) && e + 1 < |s| && s[e] == ' ' && Occurs(s, e + 1, rest) && i + |at| == e + 1 + |rest|
    ensures WordChar(s[e + 1]) && Skip(s, e) == e + 1 == Skip(s, e + 1)
  {
    OccursSplit(s, i, arg, " " + rest, e, at);
    OccursSplit(s, e, " ", rest, e + 1, " " + rest);
    OccursAt(s, e, " ", 0);
    OccursAt(s, e + 1, rest, 0);
  }

  lemma PrintArgsIs(args: seq<string>)
    requires |args| > 0 && forall k :: 0 <= k < |args| ==> IsWord(args[k])
    ensures PrintArgs(args) == if |args| == 1 then args[0] else args[0] + (" " + PrintArgs(args[1..]))
    ensures |PrintArgs(args)| > 0 && WordChar(PrintArgs(args)[0])
  {
  }

  // ---------- redirections around a command ----------

  function TWrap(t: Tree, rs: seq<To>): (u: Tree)
    decreases |rs|
  {
    if rs == [] then t else TWrap(TRedir(t, rs[0].file, rs[0].mode), rs[1..])
  }

  lemma {:induction false} TWrapSnoc(t: Tree, rs: seq<To>, r: To)
    ensures TWrap(t, rs + [r]) == TRedir(TWrap(t, rs), r.file, r.mode)
    decreases |rs|
  {
    if rs == [] {
      assert rs + [r] == [r] && [r][1..] == [];
    } else {
      assert (rs + [r])[0] == rs[0] && (rs + [r])[1..] == rs[1..] + [r];
      TWrapSnoc(TRedir(t, rs[0].file, rs[0].mode), rs[1..], r);
    }
  }

  lemma {:induction false} TWrapIs(t: Tree)
    ensures TWrap(Base(t), Tos(t)) == t
  {
    if t.TRedir? {
      TWrapIs(t.inner);
      TWrapSnoc(Base(t.inner), Tos(t.inner), To(t.file, t.mode));
    }
  }

  lemma {:induction false} DenotesWrap(s: string, c: Cmd, t: Tree, list: seq<Redirection>, rs: seq<To>)
    requires Denotes(s, c, t) && SpellsTos(s, list, rs)
    ensures Denotes(s, Wrap(c, list), TWrap(t, rs))
    decreases |rs|
  {
    if rs != [] {
      DenotesWrap(s, Redir(c, list[0]), TRedir(t, rs[0].file, rs[0].mode), list[1..], rs[1..]);
    }
  }

  // ---------- the round trip ----------

  /** A parse that took the text up to j and means t. */
  predicate Takes(s: string, r: Parsed, t: Tree, j: int) {
    r.Ok? && r.index == j && Denotes(s, r.cmd, t)
  }

  /** A simple command with its redirections. */
  lemma SimplePrint(s: string, i: int, t: Tree, at: string, m: int, rt: string, j: int)
    requires Legal(t) && Base(t).TExec? && at == PrintArgs(Base(t).args) && rt == PrintTos(Tos(t))
    requires Occurs(s, i, at) && m == i + |at| && Occurs(s, m, rt) && j == m + |rt| && Stop(s, j)
    ensures Takes(s, ParseExec(s, i), t, j)
  {
    var args, rs := Base(t).args, Tos(t);
    LegalTos(t);
    TWrapIs(t);
    if args == [] {
      RedirsPrint(s, i, rs, rt, j);
      var list := Redirs(s, i).list;
      NoBlock(s, i, rs, rt, j);
      ArgsStop(s, [], list, j);
      DenotesWrap(s, Exec([]), TExec([]), list, rs);
    } else {
      assert at[0] == args[0][0];
      OccursAt(s, i, at, 0);
      assert Redirs(s, i) == OkRedirs([], i) && !PeekIs(s, i, "(");
      var argv, list := ArgsPrint(s, i, args, at, m, rs, rt, j, [], []);
      assert [] + argv == argv && [] + list == list;
      DenotesWrap(s, Exec(argv), TExec(args), list, rs);
    }
  }

  lemma NoBlock(s: string, i: int, rs: seq<To>, rt: string, j: int)
    requires rt == PrintTos(rs) && Occurs(s, i, rt) && j == i + |rt| && Stop(s, j)
    ensures !PeekIs(s, i, "(")
  {
    if rs == [] {
      assert i == j;
    } else {
      assert rt[0] == PrintTo(rs[0])[0];
      OccursAt(s, i, rt, 0);
    }
  }

  lemma {:induction false} ExecPrint(s: string, i: int, t: Tree, text: string, j: int)
    requires Legal(t) && text == PrintExec(t) && Occurs(s, i, text) && j == i + |text| && Stop(s, j)
    ensures Takes(s, ParseExec(s, i), t, j)
    decreases Size(t), 3
  {
    var b, rt := Base(t), PrintTos(Tos(t));
    if b.TExec? {
      var at := PrintArgs(b.args);
      OccursSplit(s, i, at, rt, i + |at|, text);
      SimplePrint(s, i, t, at, i + |at|, rt, j);
    } else {
      var core := Core(b);
      var m := i + |core| + 2;
      BlockSplit(s, i, core, rt, m, text);
      LineCore(s, i + 1, b, core, m - 1);
      TidyCore(b);
      BlockPrint(s, i, t, core, m, rt, j);
    }
  }

  lemma BlockSplit(s: string, i: int, core: string, rt: string, m: int, text: string)
    requires text == "(" + (core + ")") + rt && Occurs(s, i, text) && m == i + |core| + 2
    ensures s[i] == '(' && Occurs(s, i + 1, core) && s[m - 1] == ')' && Occurs(s, m, rt) &&
      i + |text| == m + |rt| <= |s|
  {
    var at := "(" + (core + ")");
    OccursSplit(s, i, at, rt, m, text);
    OccursSplit(s, i, "(", core + ")", i + 1, at);
    OccursSplit(s, i + 1, core, ")", m - 1, core + ")");
    OccursAt(s, i, "(", 0);
    OccursAt(s, m - 1, ")", 0);
  }

  /** Two texts with a symbol between them. */
  lemma SymbolSplit(s: string, i: int, l: string, c: char, r: string, m: int, text: string, j: int)
    requires text == l + ([c] + r) && Occurs(s, i, text) && m == i + |l| && j == i + |text|
    ensures Occurs(s, i, l) && 0 <= m < |s| && s[m] == c && Occurs(s, m + 1, r) && j == m + 1 + |r|
  {
    OccursSplit(s, i, l, [c] + r, m, text);
    OccursSplit(s, m, [c], r, m + 1, [c] + r);
    OccursAt(s, m, [c], 0);
  }

  /** A command in parentheses with its redirections. */
  lemma BlockPrint(s: string, i: int, t: Tree, core: string, m: int, rt: string, j: int)
    requires Legal(t) && 0 <= i < m - 1 < |s| && s[i] == '(' && s[m - 1] == ')' && i + 1 <= m - 1
    requires Tidy(core) && Occurs(s, i + 1, core) && m - 1 == i + 1 + |core|
    requires Takes(s, ParseLine(s, i + 1), Base(t), m - 1)
    requires rt == PrintTos(Tos(t)) && Occurs(s, m, rt) && j == m + |rt| && Stop(s, j)
    ensures Takes(s, ParseExec(s, i), t, j)
  {
    var rs := Tos(t);
    LegalTos(t);
    TWrapIs(t);
    RedirsPrint(s, m, rs, rt, j);
    ParenTokens(s, i, core, m);
    var l, list := ParseLine(s, i + 1).cmd, Redirs(s, m).list;
    DenotesWrap(s, l, Base(t), list, rs);
    BlockIs(s, i, l, m, list, j);
  }

  lemma ParenTokens(s: string, i: int, core: string, m: int)
    requires 0 <= i < m - 1 < |s| && s[i] == '(' && s[m - 1] == ')' && Tidy(core) && Occurs(s, i + 1, core) &&
      m - 1 == i + 1 + |core|
    requires Break(s, m)
    ensures Skip(s, i) == i && GetTok(s, i) == Token('(', i, i + 1, i + 1)
    ensures Skip(s, m - 1) == m - 1 && GetTok(s, m - 1) == Token(')', m - 1, m, m)
  {
    if core != "" {
      OccursAt(s, i + 1, core, 0);
    }
    SymbolTok(s, i, '(');
    SymbolTok(s, m - 1, ')');
  }

  lemma BlockIs(s: string, i: int, l: Cmd, m: int, list: seq<Redirection>, j: int)
    requires 0 <= i < m - 1 < |s| && s[i] == '(' && s[m - 1] == ')' && Skip(s, i) == i && Skip(s, m - 1) == m - 1
    requires GetTok(s, i) == Token('(', i, i + 1, i + 1) && GetTok(s, m - 1) == Token(')', m - 1, m, m)
    requires ParseLine(s, i + 1) == Ok(l, m - 1) && Redirs(s, m) == OkRedirs(list, j)
    ensures ParseExec(s, i) == Ok(Wrap(l, list), j)
  {
    assert PeekIs(s, i, "(") && PeekIs(s, m - 1, ")");
  }

  /** A pipeline: what follows is not another part of it. */
  lemma {:induction false} PipeCore(s: string, i: int, t: Tree, text: string, j: int)
    requires Legal(t) && t.TPipe? && text == Core(t) && Occurs(s, i, text) && j == i + |text| && Stop(s, j) &&
      (j < |s| ==> s[j] != '|')
    ensures Takes(s, ParsePipe(s, i), t, j)
    decreases Size(t), 0
  {
    var l, r := PrintExec(t.left), PrintPipe(t.right);
    var m := i + |l|;
    var n := m + 1;
    PipeParts(s, i, t, text, l, r, m, n, j);
    ExecPrint(s, i, t.left, l, m);
    PipePrint(s, n, t.right, r, j);
    JoinPipe(s, i, t, m, n, j);
  }

  /** Where the parts of a pipeline are. */
  lemma PipeParts(s: string, i: int, t: Tree, text: string, l: string, r: string, m: int, n: int, j: int)
    requires Legal(t) && t.TPipe? && text == Core(t) && Occurs(s, i, text) && j == i + |text| && Stop(s, j)
    requires l == PrintExec(t.left) && r == PrintPipe(t.right) && m == i + |l| && n == m + 1
    ensures Occurs(s, i, l) && 0 <= i <= m < |s| && s[m] == '|' && Stop(s, m) && Occurs(s, n, r) && j == n + |r|
    ensures Skip(s, m) == m && GetTok(s, m) == Token('|', m, n, n)
    ensures Legal(t.left) && Legal(t.right) && Size(t.left) < Size(t) && Size(t.right) < Size(t)
  {
    SymbolSplit(s, i, l, '|', r, m, text, j);
    TidyLine(t.right);
    NextSymbol(s, m, '|', r, j);
  }

  lemma {:induction false} PipePrint(s: string, i: int, t: Tree, text: string, j: int)
    requires Legal(t) && text == PrintPipe(t) && Occurs(s, i, text) && j == i + |text| && Stop(s, j) &&
      (j < |s| ==> s[j] != '|')
    ensures Takes(s, ParsePipe(s, i), t, j)
    decreases Size(t), 4
  {
    if t.TPipe? {
      PipeCore(s, i, t, text, j);
    } else {
      ExecPrint(s, i, t, text, j);
      LastOfPipe(s, i, t, j);
    }
  }

  lemma JoinPipe(s: string, i: int, t: Tree, m: int, n: int, j: int)
    requires t.TPipe? && 0 <= i <= m < n <= |s| && s[m] == '|' && Skip(s, m) == m
    requires GetTok(s, m) == Token('|', m, n, n)
    requires Takes(s, ParseExec(s, i), t.left, m) && Takes(s, ParsePipe(s, n), t.right, j)
    ensures Takes(s, ParsePipe(s, i), t, j)
  {
    assert PeekIs(s, m, "|");
  }

  lemma LastOfPipe(s: string, i: int, t: Tree, j: int)
    requires 0 <= i <= |s| && Takes(s, ParseExec(s, i), t, j) && Stop(s, j) && (j < |s| ==> s[j] != '|')
    ensures Takes(s, ParsePipe(s, i), t, j)
  {
    assert !PeekIs(s, j, "|");
  }

  /** A symbol before a tidy text. */
  lemma NextSymbol(s: string, m: int, c: char, r: string, j: int)
    requires 0 <= m < |s| && s[m] == c && IsSymbol(c) && c != '>' && Tidy(r) && Occurs(s, m + 1, r) &&
      j == m + 1 + |r| && Stop(s, j)
    ensures Skip(s, m) == m && GetTok(s, m) == Token(c, m, m + 1, m + 1)
  {
    if r != "" {
      OccursAt(s, m + 1, r, 0);
    }
    SymbolTok(s, m, c);
  }

  /** The parser of a line, at i, comes by way of a pipeline and its ampersands to command c at j. */
  predicate Arrives(s: string, i: int, c: Cmd, t: Tree, j: int) {
    && 0 <= i <= j <= |s| && Denotes(s, c, t) && ParsePipe(s, i).Ok?
    && Ands(s, ParsePipe(s, i).cmd, ParsePipe(s, i).index) == Ands(s, c, j)
  }

  lemma {:induction false} BackCore(s: string, i: int, t: Tree, text: string, j: int) returns (c: Cmd)
    requires Legal(t) && (t.TPipe? || t.TBack?) && text == Core(t) && Occurs(s, i, text) && j == i + |text|
    requires Stop(s, j) && (j < |s| ==> s[j] != '|')
    ensures Arrives(s, i, c, t, j)
    decreases Size(t), 1
  {
    if t.TBack? {
      var u := PrintBack(t.cmd);
      AndSplit(s, i, u, text, j);
      var d := BackPrint(s, i, t.cmd, u, j - 1);
      c := Back(d);
      OneMoreAnd(s, i, d, t, j - 1, j);
    } else {
      PipeCore(s, i, t, text, j);
      c := ParsePipe(s, i).cmd;
    }
  }

  lemma AndSplit(s: string, i: int, u: string, text: string, j: int)
    requires text == u + "&" && Occurs(s, i, text) && j == i + |text|
    ensures Occurs(s, i, u) && 0 <= j - 1 < |s| && s[j - 1] == '&' && j - 1 == i + |u|
  {
    OccursSplit(s, i, u, "&", j - 1, text);
    OccursAt(s, j - 1, "&", 0);
  }

  lemma OneMoreAnd(s: string, i: int, d: Cmd, t: Tree, m: int, j: int)
    requires t.TBack? && Arrives(s, i, d, t.cmd, m) && m < |s| && s[m] == '&' && j == m + 1 && Stop(s, j)
    ensures Arrives(s, i, Back(d), t, j)
  {
    SymbolTok(s, m, '&');
    assert PeekIs(s, m, "&");
  }

  lemma {:induction false} BackPrint(s: string, i: int, t: Tree, text: string, j: int) returns (c: Cmd)
    requires Legal(t) && text == PrintBack(t) && Occurs(s, i, text) && j == i + |text| && Stop(s, j) &&
      (j < |s| ==> s[j] != '|')
    ensures Arrives(s, i, c, t, j)
    decreases Size(t), 4
  {
    if t.TPipe? || t.TBack? {
      c := BackCore(s, i, t, text, j);
    } else {
      ExecPrint(s, i, t, text, j);
      LastOfPipe(s, i, t, j);
      c := ParsePipe(s, i).cmd;
    }
  }

  /** A line: what follows is a closing parenthesis or nothing. */
  lemma {:induction false} LineCore(s: string, i: int, t: Tree, text: string, j: int)
    requires Legal(t) && (t.TPipe? || t.TList? || t.TBack?) && text == Core(t) && Occurs(s, i, text) && j == i + |text|
    requires 0 <= j <= |s| && (j == |s| || s[j] == ')')
    ensures Takes(s, ParseLine(s, i), t, j)
    decreases Size(t), 2
  {
    if t.TList? {
      var l, r := PrintBack(t.first), PrintLine(t.rest);
      var m := i + |l|;
      SymbolSplit(s, i, l, ';', r, m, text, j);
      var c := BackPrint(s, i, t.first, l, m);
      LinePrint(s, m + 1, t.rest, r, j);
      TidyLine(t.rest);
      NextSymbol(s, m, ';', r, j);
      JoinList(s, i, t, m, j, c);
    } else {
      var c := BackCore(s, i, t, text, j);
      LastOfLine(s, i, t, j, c);
    }
  }

  lemma {:induction false} LinePrint(s: string, i: int, t: Tree, text: string, j: int)
    requires Legal(t) && text == PrintLine(t) && Occurs(s, i, text) && j == i + |text| && 0 <= j <= |s| &&
      (j == |s| || s[j] == ')')
    ensures Takes(s, ParseLine(s, i), t, j)
    decreases Size(t), 5
  {
    if t.TPipe? || t.TList? || t.TBack? {
      LineCore(s, i, t, text, j);
    } else {
      var c := BackPrint(s, i, t, text, j);
      LastOfLine(s, i, t, j, c);
    }
  }

  lemma JoinList(s: string, i: int, t: Tree, m: int, j: int, c: Cmd)
    requires t.TList? && 0 <= m < |s| && s[m] == ';' && Skip(s, m) == m && GetTok(s, m) == Token(';', m, m + 1, m + 1)
    requires Arrives(s, i, c, t.first, m)
    requires Takes(s, ParseLine(s, m + 1), t.rest, j)
    ensures Takes(s, ParseLine(s, i), t, j)
  {
    assert Ands(s, c, m) == Ok(c, m);
    assert PeekIs(s, m, ";");
  }

  lemma LastOfLine(s: string, i: int, t: Tree, j: int, c: Cmd)
    requires Arrives(s, i, c, t, j) && (j == |s| || s[j] == ')')
    ensures Takes(s, ParseLine(s, i), t, j)
  {
    assert Ands(s, c, j) == Ok(c, j);
    assert !PeekIs(s, j, ";");
  }

  /** Parsing the text of a tree whose words are legal gives the tree back. */
  lemma RoundTrip(t: Tree)
    requires Legal(t)
    ensures Tidy(PrintLine(t))
    ensures var s := PrintLine(t); ParseCmd(s).Ok? && Denotes(s, ParseCmd(s).cmd, t)
  {
    TidyLine(t);
    var s := PrintLine(t);
    LinePrint(s, 0, t, s, |s|);
  }

  // ---------- the fewest parentheses ----------

  /** Where a command stands: where only a simple command or a block may, as the last of a
      pipeline, in front of ampersands or a semicolon, or as a whole line. */
  datatype Place = InPipe | LastInPipe | InList | WholeLine

  /** The commands that need no parentheses there. */
  predicate StandsBare(t: Tree, p: Place) {
    || (t.TPipe? && !p.InPipe?)
    || (t.TBack? && (p.InList? || p.WholeLine?))
    || (t.TList? && p.WholeLine?)
  }

  function Parens(t: Tree, p: Place): (n: nat)
    decreases Size(t), 1
  {
    if StandsBare(t, p) then CoreParens(t)
    else if Base(t).TExec? then 0
    else 1 + CoreParens(Base(t))
  }

  function CoreParens(t: Tree): (n: nat)
    requires t.TPipe? || t.TList? || t.TBack?
    decreases Size(t), 0
  {
    match t
    case TPipe(l, r) => Parens(l, InPipe) + Parens(r, LastInPipe)
    case TList(l, r) => Parens(l, InList) + Parens(r, WholeLine)
    case TBack(u) => Parens(u, InList)
  }

  // In the printed text.

  predicate Plain(s: string) {
    forall k :: 0 <= k < |s| ==> s[k] != '('
  }

  lemma {:induction false} PlainArgs(args: seq<string>)
    requires forall k :: 0 <= k < |args| ==> IsWord(args[k])
    ensures Plain(PrintArgs(args))
    decreases |args|
  {
    if |args| > 1 {
      PlainArgs(args[1..]);
    }
  }

  lemma {:induction false} PlainTos(rs: seq<To>)
    requires forall k :: 0 <= k < |rs| ==> IsWord(rs[k].file)
    ensures Plain(PrintTos(rs))
    decreases |rs|
  {
    if rs != [] {
      PlainTos(rs[1..]);
      assert IsWord(rs[0].file);
    }
  }

  lemma {:induction false} PlainOpens(s: string, i: int, text: string, k: int)
    requires Occurs(s, i, text) && Plain(text) && 0 <= k <= |text|
    ensures Opens(s, i + k, i + |text|) == 0
    decreases |text| - k
  {
    if k < |text| {
      OccursAt(s, i, text, k);
      PlainOpens(s, i, text, k + 1);
    }
  }

  /** Two texts with a character between them. */
  lemma JoinOpens(s: string, i: int, l: string, c: char, r: string, m: int, text: string, j: int)
    requires text == l + ([c] + r) && Occurs(s, i, text) && j == i + |text| && m == i + |l| && c != '('
    ensures Occurs(s, i, l) && Occurs(s, m + 1, r) && j == m + 1 + |r|
    ensures Opens(s, i, j) == Opens(s, i, m) + Opens(s, m + 1, j)
  {
    OccursSplit(s, i, l, [c] + r, m, text);
    OccursSplit(s, m, [c], r, m + 1, [c] + r);
    OccursAt(s, m, [c], 0);
    OpensSplit(s, i, m, j);
  }

  lemma {:induction false} CoreOpens(s: string, i: int, t: Tree, text: string, j: int)
    requires Legal(t) && (t.TPipe? || t.TList? || t.TBack?) && text == Core(t) && Occurs(s, i, text) && j == i + |text|
    ensures Opens(s, i, j) == CoreParens(t)
    decreases Size(t), 0
  {
    match t
    case TPipe(l, r) =>
      var a, b := PrintExec(l), PrintPipe(r);
      var m := i + |a|;
      JoinOpens(s, i, a, '|', b, m, text, j);
      PrintOpens(s, i, l, InPipe, a, m);
      PrintOpens(s, m + 1, r, LastInPipe, b, j);
    case TList(l, r) =>
      var a, b := PrintBack(l), PrintLine(r);
      var m := i + |a|;
      JoinOpens(s, i, a, ';', b, m, text, j);
      PrintOpens(s, i, l, InList, a, m);
      PrintOpens(s, m + 1, r, WholeLine, b, j);
    case TBack(u) =>
      var a := PrintBack(u);
      assert text == a + (['&'] + "");
      JoinOpens(s, i, a, '&', "", j - 1, text, j);
      PrintOpens(s, i, u, InList, a, j - 1);
  }

  function PrintAt(t: Tree, p: Place): (s: string) {
    match p
    case InPipe => PrintExec(t)
    case LastInPipe => PrintPipe(t)
    case InList => PrintBack(t)
    case WholeLine => PrintLine(t)
  }

  /** The printed text has as many as are counted for the tree. */
  lemma {:induction false} PrintOpens(s: string, i: int, t: Tree, p: Place, text: string, j: int)
    requires Legal(t) && text == PrintAt(t, p) && Occurs(s, i, text) && j == i + |text|
    ensures Opens(s, i, j) == Parens(t, p)
    decreases Size(t), 2
  {
    if StandsBare(t, p) {
      CoreOpens(s, i, t, text, j);
    } else {
      ExecOpens(s, i, t, text, j);
    }
  }

  lemma {:induction false} ExecOpens(s: string, i: int, t: Tree, text: string, j: int)
    requires Legal(t) && text == PrintExec(t) && Occurs(s, i, text) && j == i + |text|
    ensures Opens(s, i, j) == Parens(t, InPipe)
    decreases Size(t), 1
  {
    var b, rt := Base(t), PrintTos(Tos(t));
    LegalTos(t);
    PlainTos(Tos(t));
    if b.TExec? {
      PlainArgs(b.args);
      assert Plain(text);
      PlainOpens(s, i, text, 0);
    } else {
      var core := Core(b);
      var m := i + |core| + 2;
      BlockSplit(s, i, core, rt, m, text);
      CoreOpens(s, i + 1, b, core, m - 1);
      PlainOpens(s, m, rt, 0);
      OpensSplit(s, i + 1, m - 1, j);
    }
  }

  // In any text.

  /** Less room for a command bare never makes fewer. */
  lemma ParensMost(t: Tree, p: Place)
    ensures Parens(t, p) <= Parens(t, InPipe)
  {
  }

  lemma {:induction false} Unwrap(s: string, c: Cmd, rs: seq<Redirection>, t: Tree) returns (u: Tree)
    requires Denotes(s, Wrap(c, rs), t)
    ensures Denotes(s, c, u) && Base(u) == Base(t)
    decreases |rs|
  {
    if rs == [] {
      u := t;
    } else {
      var v := Unwrap(s, Redir(c, rs[0]), rs[1..], t);
      u := v.inner;
    }
  }

  lemma {:induction false} ArgsBase(s: string, argv: seq<Word>, rs: seq<Redirection>, i: int, t: Tree)
    requires 0 <= i <= |s| && Args(s, argv, rs, i).Ok? && Denotes(s, Args(s, argv, rs, i).cmd, t)
    ensures Base(t).TExec?
    decreases |s| - i
  {
    var k := GetTok(s, i);
    if PeekIs(s, i, "|)&;") || k.kind == '\0' {
      var _ := Unwrap(s, Exec(argv), rs, t);
    } else {
      var r := Redirs(s, k.next);
      ArgsBase(s, argv + [Word(k.q, k.eq)], rs + r.list, r.next, t);
    }
  }

  lemma {:induction false} ParseExecOpens(s: string, i: int, t: Tree)
    requires 0 <= i <= |s| && ParseExec(s, i).Ok? && Denotes(s, ParseExec(s, i).cmd, t)
    ensures Opens(s, i, ParseExec(s, i).index) >= Parens(t, InPipe)
    decreases |s| - i, 1
  {
    if PeekIs(s, i, "(") {
      ParseBlockOpens(s, Skip(s, i), t);
      OpensSplit(s, i, Skip(s, i), ParseExec(s, i).index);
    } else {
      var r := Redirs(s, i);
      ArgsBase(s, [], r.list, r.next, t);
    }
  }

  lemma {:induction false} ParseBlockOpens(s: string, i: int, t: Tree)
    requires 0 <= i < |s| && s[i] == '(' && PeekIs(s, i, "(") && ParseBlock(s, i).Ok? &&
      Denotes(s, ParseBlock(s, i).cmd, t)
    ensures Opens(s, i, ParseBlock(s, i).index) >= Parens(t, InPipe)
    decreases |s| - i, 0
  {
    var n := GetTok(s, i).next;
    var l := ParseLine(s, n);
    var r := Redirs(s, GetTok(s, l.index).next);
    var u := Unwrap(s, l.cmd, r.list, t);
    ParseLineOpens(s, n, u);
    OpensSplit(s, i, i + 1, r.next);
    OpensSplit(s, i + 1, n, r.next);
    OpensSplit(s, n, l.index, r.next);
    assert Opens(s, i, i + 1) == 1;
  }

  lemma {:induction false} ParsePipeOpens(s: string, i: int, t: Tree)
    requires 0 <= i <= |s| && ParsePipe(s, i).Ok? && Denotes(s, ParsePipe(s, i).cmd, t)
    ensures Opens(s, i, ParsePipe(s, i).index) >= Parens(t, LastInPipe)
    decreases |s| - i, 2
  {
    var c := ParseExec(s, i);
    OpensSplit(s, i, c.index, ParsePipe(s, i).index);
    if PeekIs(s, c.index, "|") {
      var n := GetTok(s, c.index).next;
      ParseExecOpens(s, i, t.left);
      ParsePipeOpens(s, n, t.right);
      OpensSplit(s, c.index, n, ParsePipe(s, i).index);
    } else {
      ParseExecOpens(s, i, t);
      ParensMost(t, LastInPipe);
    }
  }

  lemma {:induction false} AndsParens(s: string, c: Cmd, i: int, t: Tree) returns (u: Tree)
    requires 0 <= i <= |s| && Denotes(s, Ands(s, c, i).cmd, t)
    ensures Denotes(s, c, u) && Parens(u, InList) == Parens(t, InList)
    decreases |s| - i
  {
    if PeekIs(s, i, "&") {
      var v := AndsParens(s, Back(c), GetTok(s, i).next, t);
      u := v.cmd;
    } else {
      u := t;
    }
  }

  lemma {:induction false} ParseLineOpens(s: string, i: int, t: Tree)
    requires 0 <= i <= |s| && ParseLine(s, i).Ok? && Denotes(s, ParseLine(s, i).cmd, t)
    ensures Opens(s, i, ParseLine(s, i).index) >= Parens(t, WholeLine)
    decreases |s| - i, 3
  {
    var c := ParsePipe(s, i);
    var a := Ands(s, c.cmd, c.index);
    OpensSplit(s, i, a.index, ParseLine(s, i).index);
    OpensSplit(s, i, c.index, a.index);
    if PeekIs(s, a.index, ";") {
      var n := GetTok(s, a.index).next;
      var u := AndsParens(s, c.cmd, c.index, t.first);
      ParsePipeOpens(s, i, u);
      ParseLineOpens(s, n, t.rest);
      OpensSplit(s, a.index, n, ParseLine(s, i).index);
    } else {
      var u := AndsParens(s, c.cmd, c.index, t);
      ParsePipeOpens(s, i, u);
    }
  }

  /** No line that parses to a tree has fewer parentheses than the printed one. */
  lemma FewestParens(t: Tree, s: string)
    requires Legal(t) && ParseCmd(s).Ok? && Denotes(s, ParseCmd(s).cmd, t)
    ensures var p := PrintLine(t); Opens(p, 0, |p|) <= Opens(s, 0, |s|)
  {
    var p := PrintLine(t);
    PrintOpens(p, 0, t, WholeLine, p, |p|);
    ParseLineOpens(s, 0, t);
    OpensSplit(s, 0, ParseLine(s, 0).index, |s|);
  }
}
