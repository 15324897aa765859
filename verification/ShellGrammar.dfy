/** The command grammar of user/sh.c over tokens: how a line is parsed, and how a command is written
    so that it parses back to itself. */
module ShellGrammar {

  /** '+' of gettoken is App; 'a' is Word; the others are the symbol itself. */
  datatype Tok = Sym(c: char) | App | Word(w: string)

  datatype Mode = In | Out | Append

  datatype Redirect = Redirect(file: string, mode: Mode)

  datatype Cmd =
    | Exec(argv: seq<string>)
    | Redir(cmd: Cmd, file: string, mode: Mode)
    | Pipe(left: Cmd, right: Cmd)
    | List(left: Cmd, right: Cmd)
    | Back(cmd: Cmd)

  /** Every error is a panic: missing file, missing ')', syntax, too many args, leftovers. */
  datatype Result = Ok(cmd: Cmd, rest: seq<Tok>) | Err

  const MAXARGS: int := 10

  /** cmd inside the redirections rs, the last one outermost. */
  function Wrap(c: Cmd, rs: seq<Redirect>): Cmd
    decreases |rs|
  {
    if rs == [] then c
    else
      var r := rs[|rs| - 1];
      Redir(Wrap(c, rs[..|rs| - 1]), r.file, r.mode)
  }

  // ----- The parser -----

  predicate At(ts: seq<Tok>, c: char) {
    ts != [] && ts[0] == Sym(c)
  }

  predicate AtRedir(ts: seq<Tok>) {
    At(ts, '<') || At(ts, '>') || (ts != [] && ts[0] == App)
  }

  /** peek(ps, es, "|)&;"), or the end. */
  predicate AtStop(ts: seq<Tok>) {
    ts == [] || At(ts, '|') || At(ts, ')') || At(ts, '&') || At(ts, ';')
  }

  datatype Redirs = Redirs(rs: seq<Redirect>, rest: seq<Tok>) | Missing

  function ModeOf(t: Tok): Mode {
    if t == App then Append else if t == Sym('<') then In else Out
  }

  /** parseredirs, collecting onto rs. */
  function PRedirs(rs: seq<Redirect>, ts: seq<Tok>): (r: Redirs)
    ensures r.Redirs? ==> |r.rest| <= |ts| && !AtRedir(r.rest)
    decreases |ts|
  {
    if !AtRedir(ts) then Redirs(rs, ts)
    else if |ts| < 2 || !ts[1].Word? then Missing
    else PRedirs(rs + [Redirect(ts[1].w, ModeOf(ts[0]))], ts[2..])
  }

  /** Collecting onto rs is collecting and appending. */
  lemma {:induction false} PRedirsOnto(rs: seq<Redirect>, more: seq<Redirect>, ts: seq<Tok>)
    ensures PRedirs(rs + more, ts) == match PRedirs(more, ts)
                                      case Missing => Missing
                                      case Redirs(all, rest) => Redirs(rs + all, rest)
    decreases |ts|
  {
    if AtRedir(ts) && |ts| >= 2 && ts[1].Word? {
      var r := Redirect(ts[1].w, ModeOf(ts[0]));
      PRedirsOnto(rs, more + [r], ts[2..]);
      assert rs + (more + [r]) == rs + more + [r];
    }
  }

  /** The loop of parseexec. */
  function PArgs(argv: seq<string>, rs: seq<Redirect>, ts: seq<Tok>): (r: Result)
    ensures r.Ok? ==> |r.rest| <= |ts|
    decreases |ts|
  {
    if AtStop(ts) then Ok(Wrap(Exec(argv), rs), ts)
    else if !ts[0].Word? || |argv| + 1 >= MAXARGS then Err
    else
      match PRedirs(rs, ts[1..])
      case Missing => Err
      case Redirs(rs', rest) => PArgs(argv + [ts[0].w], rs', rest)
  }

  /** parseexec and parseblock. */
  function PExec(ts: seq<Tok>): (r: Result)
    ensures r.Ok? ==> |r.rest| <= |ts|
    decreases |ts|, 0
  {
    if At(ts, '(') then
      match PLine(ts[1..])
      case Err => Err
      case Ok(c, rest) =>
        if !At(rest, ')') then Err
        else
          match PRedirs([], rest[1..])
          case Missing => Err
          case Redirs(rs, rest') => Ok(Wrap(c, rs), rest')
    else
      match PRedirs([], ts)
      case Missing => Err
      case Redirs(rs, rest) => PArgs([], rs, rest)
  }

  /** parsepipe */
  function PPipe(ts: seq<Tok>): (r: Result)
    ensures r.Ok? ==> |r.rest| <= |ts|
    decreases |ts|, 1
  {
    match PExec(ts)
    case Err => Err
    case Ok(c, rest) =>
      if !At(rest, '|') then Ok(c, rest)
      else
        match PPipe(rest[1..])
        case Err => Err
        case Ok(d, rest') => Ok(Pipe(c, d), rest')
  }

  /** The first loop of parseline. */
  function PBacks(c: Cmd, ts: seq<Tok>): (r: Result)
    ensures r.Ok? && |r.rest| <= |ts| && !At(r.rest, '&')
    decreases |ts|
  {
    if At(ts, '&') then PBacks(Back(c), ts[1..]) else Ok(c, ts)
  }

  /** parseline */
  function PLine(ts: seq<Tok>): (r: Result)
    ensures r.Ok? ==> |r.rest| <= |ts|
    decreases |ts|, 2
  {
    match PPipe(ts)
    case Err => Err
    case Ok(c, rest) =>
      var b := PBacks(c, rest);
      if !At(b.rest, ';') then b
      else
        match PLine(b.rest[1..])
        case Err => Err
        case Ok(d, rest') => Ok(List(b.cmd, d), rest')
  }

  // ----- Writing a command -----

  ghost function Words(argv: seq<string>): seq<Tok> {
    seq(|argv|, i requires 0 <= i < |argv| => Word(argv[i]))
  }

  function ModeTok(m: Mode): Tok {
    match m
    case In => Sym('<')
    case Out => Sym('>')
    case Append => App
  }

  ghost function TRedirs(rs: seq<Redirect>): seq<Tok>
    decreases |rs|
  {
    if rs == [] then [] else [ModeTok(rs[0].mode), Word(rs[0].file)] + TRedirs(rs[1..])
  }

  /** A redirected command is its base and its redirections. */
  function Base(c: Cmd): (b: Cmd)
    ensures b == c || b < c
    ensures !b.Redir?
  {
    if c.Redir? then Base(c.cmd) else c
  }

  function Rs(c: Cmd): seq<Redirect> {
    if c.Redir? then Rs(c.cmd) + [Redirect(c.file, c.mode)] else []
  }

  lemma {:induction false} BaseRs(c: Cmd)
    ensures Wrap(Base(c), Rs(c)) == c
  {
    if c.Redir? {
      BaseRs(c.cmd);
      assert Rs(c)[..|Rs(c)| - 1] == Rs(c.cmd);
    }
  }

  /** A word list or a command in parentheses, and redirections. */
  ghost function TExec(c: Cmd): seq<Tok>
    decreases c, 0
  {
    var b := Base(c);
    (if b.Exec? then Words(b.argv) else [Sym('(')] + Inner(b) + [Sym(')')]) + TRedirs(Rs(c))
  }

  /** The line in the parentheses. */
  ghost function Inner(b: Cmd): seq<Tok>
    requires !b.Redir?
    decreases b, 0, 1
  {
    match b
    case Exec(argv) => Words(argv)
    case List(l, r) => TBack(l) + [Sym(';')] + TLine(r)
    case Back(x) => TBack(x) + [Sym('&')]
    case Pipe(l, r) => TExec(l) + [Sym('|')] + TPipe(r)
  }

  ghost function TPipe(c: Cmd): seq<Tok>
    decreases c, 1
  {
    if c.Pipe? then TExec(c.left) + [Sym('|')] + TPipe(c.right) else TExec(c)
  }

  ghost function TBack(c: Cmd): seq<Tok>
    decreases c, 2
  {
    if c.Back? then TBack(c.cmd) + [Sym('&')] else TPipe(c)
  }

  ghost function TLine(c: Cmd): seq<Tok>
    decreases c, 3
  {
    if c.List? then TBack(c.left) + [Sym(';')] + TLine(c.right) else TBack(c)
  }

  /** parseexec has room for nine arguments. */
  ghost predicate Fits(c: Cmd) {
    match c
    case Exec(argv) => |argv| < MAXARGS
    case Redir(x, _, _) => Fits(x)
    case Pipe(l, r) => Fits(l) && Fits(r)
    case List(l, r) => Fits(l) && Fits(r)
    case Back(x) => Fits(x)
  }

  // ----- Parsing what was written -----

  lemma {:induction false} RtRedirs(done: seq<Redirect>, rs: seq<Redirect>, rest: seq<Tok>)
    requires !AtRedir(rest)
    ensures PRedirs(done, TRedirs(rs) + rest) == Redirs(done + rs, rest)
    decreases |rs|
  {
    var ts := TRedirs(rs) + rest;
    if rs == [] {
      assert ts == rest && done + rs == done;
    } else {
      assert ts[2..] == TRedirs(rs[1..]) + rest;
      assert ModeOf(ts[0]) == rs[0].mode && ts[1] == Word(rs[0].file);
      RtRedirs(done + [rs[0]], rs[1..], rest);
      assert done + [rs[0]] + rs[1..] == done + rs;
    }
  }

  lemma RtLastArg(done: seq<string>, w: string, rs: seq<Redirect>, rest: seq<Tok>)
    requires |done| + 1 < MAXARGS && AtStop(rest)
    ensures PArgs(done, [], Words([w]) + TRedirs(rs) + rest) == Ok(Wrap(Exec(done + [w]), rs), rest)
  {
    RtRedirs([], rs, rest);
    assert [] + rs == rs;
    OneWord(w, TRedirs(rs), rest);
    PArgsWord(done, w, TRedirs(rs) + rest, rs, rest);
  }

  lemma OneWord(w: string, more: seq<Tok>, rest: seq<Tok>)
    ensures Words([w]) + more + rest == [Word(w)] + (more + rest)
  {
    assert Words([w]) == [Word(w)];
  }

  lemma PArgsWord(argv: seq<string>, w: string, ts: seq<Tok>, rs: seq<Redirect>, rest: seq<Tok>)
    requires |argv| + 1 < MAXARGS && PRedirs([], ts) == Redirs(rs, rest)
    ensures PArgs(argv, [], [Word(w)] + ts) == PArgs(argv + [w], rs, rest)
  {
    assert ([Word(w)] + ts)[1..] == ts;
  }

  lemma {:induction false} RtArgs(done: seq<string>, todo: seq<string>, rs: seq<Redirect>, rest: seq<Tok>)
    requires todo != [] && |done| + |todo| < MAXARGS && AtStop(rest)
    ensures PArgs(done, [], Words(todo) + TRedirs(rs) + rest) == Ok(Wrap(Exec(done + todo), rs), rest)
    decreases |todo|
  {
    if |todo| == 1 {
      RtLastArg(done, todo[0], rs, rest);
      assert todo == [todo[0]];
    } else {
      var tail := Words(todo[1..]) + TRedirs(rs) + rest;
      WordsStep(todo, TRedirs(rs), rest);
      WordsFirst(todo[1..], TRedirs(rs), rest);
      PArgsWord(done, todo[0], tail, [], tail);
      RtArgs(done + [todo[0]], todo[1..], rs, rest);
      assert done + [todo[0]] + todo[1..] == done + todo;
    }
  }

  lemma WordsStep(argv: seq<string>, more: seq<Tok>, rest: seq<Tok>)
    requires argv != []
    ensures Words(argv) + more + rest == [Word(argv[0])] + (Words(argv[1..]) + more + rest)
  {
    assert Words(argv) == [Word(argv[0])] + Words(argv[1..]);
  }

  lemma PExecPlain(ts: seq<Tok>, rs: seq<Redirect>, rest: seq<Tok>)
    requires !At(ts, '(') && PRedirs([], ts) == Redirs(rs, rest)
    ensures PExec(ts) == PArgs([], rs, rest)
  {
  }

  lemma RtWords(argv: seq<string>, rs: seq<Redirect>, rest: seq<Tok>)
    requires |argv| < MAXARGS && AtStop(rest)
    ensures PExec(Words(argv) + TRedirs(rs) + rest) == Ok(Wrap(Exec(argv), rs), rest)
  {
    var ts := Words(argv) + TRedirs(rs) + rest;
    if argv == [] {
      RtNoWords(rs, rest);
      assert ts == TRedirs(rs) + rest;
    } else {
      RtSomeWords(argv, rs, rest);
    }
  }

  lemma RtSomeWords(argv: seq<string>, rs: seq<Redirect>, rest: seq<Tok>)
    requires argv != [] && |argv| < MAXARGS && AtStop(rest)
    ensures PExec(Words(argv) + TRedirs(rs) + rest) == Ok(Wrap(Exec(argv), rs), rest)
  {
    var ts := Words(argv) + TRedirs(rs) + rest;
    WordsFirst(argv, TRedirs(rs), rest);
    PExecPlain(ts, [], ts);
    RtArgs([], argv, rs, rest);
    assert [] + argv == argv;
  }

  lemma WordsFirst(argv: seq<string>, more: seq<Tok>, rest: seq<Tok>)
    requires argv != []
    ensures (Words(argv) + more + rest)[0] == Word(argv[0])
  {
  }

  lemma RtNoWords(rs: seq<Redirect>, rest: seq<Tok>)
    requires AtStop(rest)
    ensures PExec(TRedirs(rs) + rest) == Ok(Wrap(Exec([]), rs), rest)
  {
    var ts := TRedirs(rs) + rest;
    RtRedirs([], rs, rest);
    assert [] + rs == rs;
    if rs == [] {
      assert ts == rest;
    } else {
      assert ts[0] == ModeTok(rs[0].mode);
    }
    PExecPlain(ts, rs, rest);
  }

  lemma {:induction false} FitsBase(c: Cmd)
    requires Fits(c)
    ensures Fits(Base(c))
  {
    if c.Redir? {
      FitsBase(c.cmd);
    }
  }

  lemma {:induction false} RtExec(c: Cmd, rest: seq<Tok>)
    requires Fits(c) && AtStop(rest)
    ensures PExec(TExec(c) + rest) == Ok(c, rest)
    decreases c, 0
  {
    var b, rs := Base(c), Rs(c);
    BaseRs(c);
    FitsBase(c);
    if b.Exec? {
      assert TExec(c) + rest == Words(b.argv) + TRedirs(rs) + rest;
      RtWords(b.argv, rs, rest);
    } else {
      RtInner(b, [Sym(')')] + (TRedirs(rs) + rest));
      RtBlock(Inner(b), b, rs, rest);
    }
  }

  lemma RtBlock(line: seq<Tok>, b: Cmd, rs: seq<Redirect>, rest: seq<Tok>)
    requires AtStop(rest)
    requires PLine(line + ([Sym(')')] + (TRedirs(rs) + rest))) == Ok(b, [Sym(')')] + (TRedirs(rs) + rest))
    ensures PExec([Sym('(')] + line + [Sym(')')] + TRedirs(rs) + rest) == Ok(Wrap(b, rs), rest)
  {
    var tail := [Sym(')')] + (TRedirs(rs) + rest);
    RtRedirs([], rs, rest);
    assert [] + rs == rs;
    Bracketed(line, TRedirs(rs), rest);
    assert tail[1..] == TRedirs(rs) + rest;
    assert ([Sym('(')] + (line + tail))[1..] == line + tail;
    PExecBlock([Sym('(')] + (line + tail), b, tail, rs, rest);
  }

  lemma Bracketed(line: seq<Tok>, more: seq<Tok>, rest: seq<Tok>)
    ensures [Sym('(')] + line + [Sym(')')] + more + rest == [Sym('(')] + (line + ([Sym(')')] + (more + rest)))
  {
  }

  lemma PExecBlock(ts: seq<Tok>, b: Cmd, tail: seq<Tok>, rs: seq<Redirect>, rest: seq<Tok>)
    requires At(ts, '(') && PLine(ts[1..]) == Ok(b, tail) && At(tail, ')') && PRedirs([], tail[1..]) == Redirs(rs, rest)
    ensures PExec(ts) == Ok(Wrap(b, rs), rest)
  {
  }

  lemma {:induction false} RtInner(b: Cmd, rest: seq<Tok>)
    requires Fits(b) && !b.Redir? && !b.Exec? && (rest == [] || At(rest, ')'))
    ensures PLine(Inner(b) + rest) == Ok(b, rest)
    decreases b, 0, 1
  {
    match b
    case List(l, r) =>
      var tail := [Sym(';')] + (TLine(r) + rest);
      assert Inner(b) + rest == TBack(l) + tail;
      RtBack(l, tail);
      assert tail[1..] == TLine(r) + rest;
      RtLine(r, rest);
    case Back(x) =>
      var tail := [Sym('&')] + rest;
      assert Inner(b) + rest == TBack(x) + tail;
      RtBack(x, tail);
      assert tail[1..] == rest;
    case Pipe(l, r) =>
      var tail := [Sym('|')] + (TPipe(r) + rest);
      assert Inner(b) + rest == TExec(l) + tail;
      RtExec(l, tail);
      assert tail[1..] == TPipe(r) + rest;
      RtPipe(r, rest);
  }

  lemma {:induction false} RtPipe(c: Cmd, rest: seq<Tok>)
    requires Fits(c) && AtStop(rest) && !At(rest, '|')
    ensures PPipe(TPipe(c) + rest) == Ok(c, rest)
    decreases c, 1
  {
    if c.Pipe? {
      var tail := [Sym('|')] + (TPipe(c.right) + rest);
      assert TPipe(c) + rest == TExec(c.left) + tail;
      RtExec(c.left, tail);
      assert tail[1..] == TPipe(c.right) + rest;
      RtPipe(c.right, rest);
    } else {
      RtExec(c, rest);
    }
  }

  lemma {:induction false} RtBack(c: Cmd, rest: seq<Tok>)
    requires Fits(c) && AtStop(rest) && !At(rest, '|')
    ensures var r := PPipe(TBack(c) + rest); r.Ok? && PBacks(r.cmd, r.rest) == PBacks(c, rest)
    decreases c, 2
  {
    if c.Back? {
      var tail := [Sym('&')] + rest;
      assert TBack(c) + rest == TBack(c.cmd) + tail;
      RtBack(c.cmd, tail);
      assert tail[1..] == rest;
    } else {
      RtPipe(c, rest);
    }
  }

  lemma {:induction false} RtLine(c: Cmd, rest: seq<Tok>)
    requires Fits(c) && (rest == [] || At(rest, ')'))
    ensures PLine(TLine(c) + rest) == Ok(c, rest)
    decreases c, 3
  {
    if c.List? {
      var tail := [Sym(';')] + (TLine(c.right) + rest);
      assert TLine(c) + rest == TBack(c.left) + tail;
      RtBack(c.left, tail);
      assert tail[1..] == TLine(c.right) + rest;
      RtLine(c.right, rest);
    } else {
      RtBack(c, rest);
    }
  }

  // ----- Ten arguments or more: every parse ends in the panic of parseexec -----

  lemma {:induction false} FullArgs(done: seq<string>, todo: seq<string>, rs: seq<Redirect>, rest: seq<Tok>)
    requires todo != [] && |done| < MAXARGS <= |done| + |todo|
    ensures PArgs(done, [], Words(todo) + TRedirs(rs) + rest) == Err
    decreases |todo|
  {
    var ts := Words(todo) + TRedirs(rs) + rest;
    assert ts[0] == Word(todo[0]);
    if |done| + 1 < MAXARGS {
      var tail := Words(todo[1..]) + TRedirs(rs) + rest;
      assert tail[0] == Word(todo[1]);
      assert ts == [Word(todo[0])] + tail;
      PArgsWord(done, todo[0], tail, [], tail);
      FullArgs(done + [todo[0]], todo[1..], rs, rest);
    }
  }

  lemma {:induction false} FullBase(c: Cmd)
    requires !Fits(c)
    ensures !Fits(Base(c))
  {
    if c.Redir? {
      FullBase(c.cmd);
    }
  }

  lemma FullWords(argv: seq<string>, rs: seq<Redirect>, rest: seq<Tok>)
    requires |argv| >= MAXARGS
    ensures PExec(Words(argv) + TRedirs(rs) + rest) == Err
  {
    var ts := Words(argv) + TRedirs(rs) + rest;
    WordsFirst(argv, TRedirs(rs), rest);
    PExecPlain(ts, [], ts);
    FullArgs([], argv, rs, rest);
  }

  lemma {:induction false} FullExec(c: Cmd, rest: seq<Tok>)
    requires !Fits(c)
    ensures PExec(TExec(c) + rest) == Err
    decreases c, 0
  {
    var b, rs := Base(c), Rs(c);
    FullBase(c);
    if b.Exec? {
      assert TExec(c) + rest == Words(b.argv) + TRedirs(rs) + rest;
      FullWords(b.argv, rs, rest);
    } else {
      FullInner(b, [Sym(')')] + (TRedirs(rs) + rest));
      FullBlock(Inner(b), TRedirs(rs), rest);
    }
  }

  lemma FullBlock(line: seq<Tok>, more: seq<Tok>, rest: seq<Tok>)
    requires PLine(line + ([Sym(')')] + (more + rest))) == Err
    ensures PExec([Sym('(')] + line + [Sym(')')] + more + rest) == Err
  {
    var ts := [Sym('(')] + line + [Sym(')')] + more + rest;
    assert ts[1..] == line + ([Sym(')')] + (more + rest));
  }

  lemma {:induction false} FullInner(b: Cmd, rest: seq<Tok>)
    requires !Fits(b) && !b.Redir? && !b.Exec? && (rest == [] || At(rest, ')'))
    ensures PLine(Inner(b) + rest) == Err
    decreases b, 0, 1
  {
    match b
    case List(l, r) =>
      var tail := [Sym(';')] + (TLine(r) + rest);
      assert Inner(b) + rest == TBack(l) + tail;
      if Fits(l) {
        RtBack(l, tail);
        assert tail[1..] == TLine(r) + rest;
        FullLine(r, rest);
      } else {
        FullBack(l, tail);
      }
    case Back(x) =>
      assert Inner(b) + rest == TBack(x) + ([Sym('&')] + rest);
      FullBack(x, [Sym('&')] + rest);
    case Pipe(l, r) =>
      var tail := [Sym('|')] + (TPipe(r) + rest);
      assert Inner(b) + rest == TExec(l) + tail;
      if Fits(l) {
        RtExec(l, tail);
        assert tail[1..] == TPipe(r) + rest;
        FullPipe(r, rest);
      } else {
        FullExec(l, tail);
      }
  }

  lemma {:induction false} FullPipe(c: Cmd, rest: seq<Tok>)
    requires !Fits(c) && AtStop(rest) && !At(rest, '|')
    ensures PPipe(TPipe(c) + rest) == Err
    decreases c, 1
  {
    if c.Pipe? {
      var tail := [Sym('|')] + (TPipe(c.right) + rest);
      assert TPipe(c) + rest == TExec(c.left) + tail;
      if Fits(c.left) {
        RtExec(c.left, tail);
        assert tail[1..] == TPipe(c.right) + rest;
        FullPipe(c.right, rest);
      } else {
        FullExec(c.left, tail);
      }
    } else {
      FullExec(c, rest);
    }
  }

  lemma {:induction false} FullBack(c: Cmd, rest: seq<Tok>)
    requires !Fits(c) && AtStop(rest) && !At(rest, '|')
    ensures PPipe(TBack(c) + rest) == Err
    decreases c, 2
  {
    if c.Back? {
      assert TBack(c) + rest == TBack(c.cmd) + ([Sym('&')] + rest);
      FullBack(c.cmd, [Sym('&')] + rest);
    } else {
      FullPipe(c, rest);
    }
  }

  lemma {:induction false} FullLine(c: Cmd, rest: seq<Tok>)
    requires !Fits(c) && (rest == [] || At(rest, ')'))
    ensures PLine(TLine(c) + rest) == Err
    decreases c, 3
  {
    if c.List? {
      var tail := [Sym(';')] + (TLine(c.right) + rest);
      assert TLine(c) + rest == TBack(c.left) + tail;
      if Fits(c.left) {
        RtBack(c.left, tail);
        assert tail[1..] == TLine(c.right) + rest;
        FullLine(c.right, rest);
      } else {
        FullBack(c.left, tail);
      }
    } else {
      FullBack(c, rest);
    }
  }
}
