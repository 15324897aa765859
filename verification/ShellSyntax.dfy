/** What the lines of user/sh.c are, apart from how they are parsed: a simple command is its words and its
    redirections by their positions, in any order; lines are built from them by a grammar. The parser
    accepts exactly these, with exactly this meaning. */
module ShellSyntax {
  import opened ShellGrammar

  // ----- Simple commands by position -----

  predicate StopTok(t: Tok) {
    t == Sym('|') || t == Sym(')') || t == Sym('&') || t == Sym(';')
  }

  predicate RedirTok(t: Tok) {
    t == Sym('<') || t == Sym('>') || t == App
  }

  /** The token at j is a word or begins a redirection, which has its file. */
  predicate RegularAt(seg: seq<Tok>, j: nat)
    requires j < |seg|
  {
    seg[j].Word? || (RedirTok(seg[j]) && j + 1 < |seg| && seg[j + 1].Word?)
  }

  ghost predicate Regular(seg: seq<Tok>) {
    forall j {:trigger RegularAt(seg, j)} :: 0 <= j < |seg| ==> RegularAt(seg, j)
  }

  /** The word at j is an argument: it is not the file of a redirection. */
  predicate IsArg(seg: seq<Tok>, j: nat)
    requires j < |seg|
  {
    seg[j].Word? && (j == 0 || !RedirTok(seg[j - 1]))
  }

  /** The redirection that begins at j, if any. */
  function RedirAt(seg: seq<Tok>, j: nat): seq<Redirect>
    requires j < |seg|
  {
    if RedirTok(seg[j]) && j + 1 < |seg| && seg[j + 1].Word? then [Redirect(seg[j + 1].w, ModeOf(seg[j]))] else []
  }

  /** The arguments from position j on, in order. */
  ghost function ArgsFrom(seg: seq<Tok>, j: nat): seq<string>
    decreases |seg| - j
  {
    if j >= |seg| then [] else (if IsArg(seg, j) then [seg[j].w] else []) + ArgsFrom(seg, j + 1)
  }

  /** The redirections from position j on, in order. */
  ghost function RedirsFrom(seg: seq<Tok>, j: nat): seq<Redirect>
    decreases |seg| - j
  {
    if j >= |seg| then [] else RedirAt(seg, j) + RedirsFrom(seg, j + 1)
  }

  /** The tokens before the first stop token. */
  ghost function StopAt(ts: seq<Tok>): (n: nat)
    ensures n <= |ts| && (n < |ts| ==> StopTok(ts[n]))
    ensures forall j :: 0 <= j < n ==> !StopTok(ts[j])
  {
    if ts == [] || StopTok(ts[0]) then 0 else 1 + StopAt(ts[1..])
  }

  /** A simple command: fewer than ten arguments, and only words and redirections. */
  ghost predicate Simple(seg: seq<Tok>) {
    Regular(seg) && |ArgsFrom(seg, 0)| < 10
  }

  ghost function Meaning(seg: seq<Tok>): Cmd {
    Wrap(Exec(ArgsFrom(seg, 0)), RedirsFrom(seg, 0))
  }

  /** What parseexec gives with argv and rs already read. */
  ghost function Given(argv: seq<string>, rs: seq<Redirect>, ts: seq<Tok>): Result {
    var n := StopAt(ts);
    var seg := ts[..n];
    if Regular(seg) && |argv| + |ArgsFrom(seg, 0)| < 10
    then Ok(Wrap(Exec(argv + ArgsFrom(seg, 0)), rs + RedirsFrom(seg, 0)), ts[n..])
    else Err
  }

  /** parseredirs and the loop of parseexec. */
  function Loop(argv: seq<string>, rs: seq<Redirect>, ts: seq<Tok>): Result {
    match PRedirs(rs, ts)
    case Missing => Err
    case Redirs(rs', rest) => PArgs(argv, rs', rest)
  }

  /** What precedes does not matter to the rest unless it is a redirection that lacks its file. */
  lemma {:induction false} ArgsShift(pre: seq<Tok>, seg: seq<Tok>, j: nat)
    requires pre != [] && pre[|pre| - 1].Word? && j <= |seg|
    ensures ArgsFrom(pre + seg, |pre| + j) == ArgsFrom(seg, j) && RedirsFrom(pre + seg, |pre| + j) == RedirsFrom(seg, j)
    decreases |seg| - j
  {
    if j < |seg| {
      ArgsShift(pre, seg, j + 1);
      TokShift(pre, seg, j);
    }
  }

  lemma TokShift(pre: seq<Tok>, seg: seq<Tok>, j: nat)
    requires pre != [] && pre[|pre| - 1].Word? && j < |seg|
    ensures var (all, k) := (pre + seg, |pre| + j);
            all[k] == seg[j] && (IsArg(all, k) <==> IsArg(seg, j)) && RedirAt(all, k) == RedirAt(seg, j)
  {
    var all, k := pre + seg, |pre| + j;
    assert all[k] == seg[j];
    assert all[k - 1] == if j == 0 then pre[|pre| - 1] else seg[j - 1];
    assert j + 1 < |seg| ==> all[k + 1] == seg[j + 1];
  }

  lemma ConsWord(w: string, seg: seq<Tok>)
    ensures var all := [Word(w)] + seg;
            && (Regular(all) <==> Regular(seg))
            && ArgsFrom(all, 0) == [w] + ArgsFrom(seg, 0) && RedirsFrom(all, 0) == RedirsFrom(seg, 0)
  {
    var all := [Word(w)] + seg;
    ArgsShift([Word(w)], seg, 0);
    assert all[0] == Word(w) && all[1..] == seg;
    assert RegularAt([Word(w)], 0);
    ConsRegular([Word(w)], seg);
  }

  lemma ConsRegular(pre: seq<Tok>, seg: seq<Tok>)
    requires pre != [] && pre[|pre| - 1].Word? && Regular(pre)
    ensures Regular(pre + seg) <==> Regular(seg)
  {
    var all, n := pre + seg, |pre|;
    if Regular(all) {
      forall j | 0 <= j < |seg|
        ensures RegularAt(seg, j)
      {
        assert RegularAt(all, n + j);
      }
    }
    if Regular(seg) {
      forall j | 0 <= j < |all|
        ensures RegularAt(all, j)
      {
        if j < n {
          assert RegularAt(pre, j);
        } else {
          assert RegularAt(seg, j - n);
        }
      }
    }
  }

  lemma ConsRedir(op: Tok, f: string, seg: seq<Tok>)
    requires RedirTok(op)
    ensures var all := [op, Word(f)] + seg;
            && (Regular(all) <==> Regular(seg))
            && ArgsFrom(all, 0) == ArgsFrom(seg, 0) && RedirsFrom(all, 0) == [Redirect(f, ModeOf(op))] + RedirsFrom(seg, 0)
  {
    var all := [op, Word(f)] + seg;
    ArgsShift([op, Word(f)], seg, 0);
    assert all[0] == op && all[1] == Word(f);
    assert ArgsFrom(all, 0) == ArgsFrom(all, 1) == ArgsFrom(all, 2);
    assert RedirsFrom(all, 1) == RedirsFrom(all, 2);
    assert RegularAt([op, Word(f)], 0) && RegularAt([op, Word(f)], 1);
    ConsRegular([op, Word(f)], seg);
  }

  lemma StopCons(ts: seq<Tok>)
    requires ts != [] && !StopTok(ts[0])
    ensures StopAt(ts) == 1 + StopAt(ts[1..]) && ts[..StopAt(ts)] == [ts[0]] + ts[1..][..StopAt(ts[1..])]
    ensures ts[StopAt(ts)..] == ts[1..][StopAt(ts[1..])..]
  {
  }

  /** One word of the loop. */
  lemma GivenWord(argv: seq<string>, rs: seq<Redirect>, ts: seq<Tok>)
    requires ts != [] && ts[0].Word?
    ensures Given(argv, rs, ts) == if |argv| + 1 >= 10 then Err else Given(argv + [ts[0].w], rs, ts[1..])
  {
    StopCons(ts);
    var seg := ts[1..][..StopAt(ts[1..])];
    ConsWord(ts[0].w, seg);
    assert argv + ([ts[0].w] + ArgsFrom(seg, 0)) == argv + [ts[0].w] + ArgsFrom(seg, 0);
  }

  /** One redirection. */
  lemma GivenRedir(argv: seq<string>, rs: seq<Redirect>, ts: seq<Tok>)
    requires |ts| >= 2 && RedirTok(ts[0]) && ts[1].Word?
    ensures Given(argv, rs, ts) == Given(argv, rs + [Redirect(ts[1].w, ModeOf(ts[0]))], ts[2..])
  {
    StopCons(ts);
    StopCons(ts[1..]);
    assert ts[1..][1..] == ts[2..];
    var seg, r := ts[2..][..StopAt(ts[2..])], Redirect(ts[1].w, ModeOf(ts[0]));
    assert ts[..StopAt(ts)] == [ts[0], Word(ts[1].w)] + seg;
    ConsRedir(ts[0], ts[1].w, seg);
    assert rs + ([r] + RedirsFrom(seg, 0)) == rs + [r] + RedirsFrom(seg, 0);
  }

  /** A token that is neither, or a redirection without its file. */
  lemma GivenBad(argv: seq<string>, rs: seq<Redirect>, ts: seq<Tok>)
    requires ts != [] && !ts[0].Word? && !StopTok(ts[0]) && (RedirTok(ts[0]) ==> |ts| < 2 || !ts[1].Word?)
    ensures Given(argv, rs, ts) == Err
  {
    var seg := ts[..StopAt(ts)];
    StopCons(ts);
    assert seg[0] == ts[0];
    assert |seg| > 1 ==> seg[1] == ts[1];
    assert !RegularAt(seg, 0);
  }

  lemma {:induction false} LoopExact(argv: seq<string>, rs: seq<Redirect>, ts: seq<Tok>)
    requires |argv| < 10
    ensures Loop(argv, rs, ts) == Given(argv, rs, ts)
    decreases |ts|
  {
    if AtRedir(ts) {
      if |ts| >= 2 && ts[1].Word? {
        GivenRedir(argv, rs, ts);
        LoopExact(argv, rs + [Redirect(ts[1].w, ModeOf(ts[0]))], ts[2..]);
      } else {
        GivenBad(argv, rs, ts);
      }
    } else if AtStop(ts) {
      assert StopAt(ts) == 0 && ts[..0] == [] && ts[0..] == ts;
      assert argv + [] == argv && rs + [] == rs;
    } else if ts[0].Word? {
      GivenWord(argv, rs, ts);
      if |argv| + 1 < 10 {
        LoopExact(argv + [ts[0].w], rs, ts[1..]);
      }
    } else {
      GivenBad(argv, rs, ts);
    }
  }

  /** parseexec on what does not begin with '(': exactly the arguments in order inside exactly the
      redirections in order, wherever they stand; a panic exactly if some token is neither, a redirection
      lacks its file, or there are ten arguments. */
  lemma SimpleExact(ts: seq<Tok>)
    requires !At(ts, '(')
    ensures var n := StopAt(ts);
            PExec(ts) == if Simple(ts[..n]) then Ok(Meaning(ts[..n]), ts[n..]) else Err
  {
    LoopExact([], [], ts);
    var seg := ts[..StopAt(ts)];
    assert [] + ArgsFrom(seg, 0) == ArgsFrom(seg, 0) && [] + RedirsFrom(seg, 0) == RedirsFrom(seg, 0);
  }

  /** parseredirs alone: the redirections up to the first token that begins none. */
  lemma {:induction false} RedirsExact(rs: seq<Redirect>, ts: seq<Tok>) returns (k: nat)
    requires PRedirs(rs, ts).Redirs?
    ensures k <= |ts| && Regular(ts[..k]) && ArgsFrom(ts[..k], 0) == []
    ensures PRedirs(rs, ts) == Redirs(rs + RedirsFrom(ts[..k], 0), ts[k..])
    decreases |ts|
  {
    if AtRedir(ts) {
      var r := Redirect(ts[1].w, ModeOf(ts[0]));
      var j := RedirsExact(rs + [r], ts[2..]);
      k := j + 2;
      assert ts[..k] == [ts[0], Word(ts[1].w)] + ts[2..][..j] && ts[k..] == ts[2..][j..];
      ConsRedir(ts[0], ts[1].w, ts[2..][..j]);
      assert rs + ([r] + RedirsFrom(ts[2..][..j], 0)) == rs + [r] + RedirsFrom(ts[2..][..j], 0);
    } else {
      k := 0;
      assert ts[..0] == [] && ts[0..] == ts && rs + [] == rs;
    }
  }

  lemma BeginsRedir(seg: seq<Tok>)
    requires seg != [] && Regular(seg) && ArgsFrom(seg, 0) == []
    ensures RedirTok(seg[0]) && |seg| > 1 && seg[1].Word?
  {
    assert RegularAt(seg, 0);
  }

  lemma {:induction false} RedirsRead(rs: seq<Redirect>, seg: seq<Tok>, rest: seq<Tok>)
    requires Regular(seg) && ArgsFrom(seg, 0) == [] && !AtRedir(rest)
    ensures PRedirs(rs, seg + rest) == Redirs(rs + RedirsFrom(seg, 0), rest)
    decreases |seg|
  {
    if seg == [] {
      assert seg + rest == rest && rs + [] == rs;
    } else {
      BeginsRedir(seg);
      var r, tail := Redirect(seg[1].w, ModeOf(seg[0])), seg[2..];
      assert seg == [seg[0], Word(seg[1].w)] + tail;
      ConsRedir(seg[0], seg[1].w, tail);
      RedirsRead(rs + [r], tail, rest);
      assert (seg + rest)[2..] == tail + rest;
      assert rs + ([r] + RedirsFrom(tail, 0)) == rs + [r] + RedirsFrom(tail, 0);
    }
  }

  // ----- Lines -----

  /** A line and how it is made up: simple commands and parenthesised lines with their redirections, joined by
      '|', marked with '&' and joined by ';'. */
  datatype Line =
    | Plain(seg: seq<Tok>)
    | Block(line: Line, redirs: seq<Tok>)
    | Piped(left: Line, right: Line)
    | Marked(line: Line)
    | Listed(left: Line, right: Line)

  /** Its tokens. */
  ghost function Tokens(d: Line): seq<Tok> {
    match d
    case Plain(seg) => seg
    case Block(l, redirs) => [Sym('(')] + Tokens(l) + [Sym(')')] + redirs
    case Piped(l, r) => Tokens(l) + [Sym('|')] + Tokens(r)
    case Marked(l) => Tokens(l) + [Sym('&')]
    case Listed(l, r) => Tokens(l) + [Sym(';')] + Tokens(r)
  }

  /** Its command. */
  ghost function Value(d: Line): Cmd {
    match d
    case Plain(seg) => Meaning(seg)
    case Block(l, redirs) => Wrap(Value(l), RedirsFrom(redirs, 0))
    case Piped(l, r) => Pipe(Value(l), Value(r))
    case Marked(l) => Back(Value(l))
    case Listed(l, r) => List(Value(l), Value(r))
  }

  ghost predicate NoStop(seg: seq<Tok>) {
    forall j :: 0 <= j < |seg| ==> !StopTok(seg[j])
  }

  ghost predicate IsExec(d: Line)
    decreases d, 0
  {
    match d
    case Plain(seg) => Simple(seg) && !At(seg, '(') && NoStop(seg)
    case Block(l, redirs) => IsLine(l) && Regular(redirs) && ArgsFrom(redirs, 0) == []
    case _ => false
  }

  ghost predicate IsPipe(d: Line)
    decreases d, 1
  {
    if d.Piped? then IsExec(d.left) && IsPipe(d.right) else IsExec(d)
  }

  ghost predicate IsMarked(d: Line)
    decreases d, 2
  {
    if d.Marked? then IsMarked(d.line) else IsPipe(d)
  }

  /** The grammar. */
  ghost predicate IsLine(d: Line)
    decreases d, 3
  {
    if d.Listed? then IsMarked(d.left) && IsLine(d.right) else IsMarked(d)
  }

  // ----- Every line is parsed -----

  lemma StopWhole(seg: seq<Tok>, rest: seq<Tok>)
    requires NoStop(seg) && AtStop(rest)
    ensures StopAt(seg + rest) == |seg| && (seg + rest)[..|seg|] == seg && (seg + rest)[|seg|..] == rest
  {
    var ts := seg + rest;
    assert rest != [] ==> ts[|seg|] == rest[0];
    assert forall j :: 0 <= j < |seg| ==> ts[j] == seg[j];
  }

  lemma NotOpen(seg: seq<Tok>, rest: seq<Tok>)
    requires !At(seg, '(') && AtStop(rest)
    ensures !At(seg + rest, '(')
  {
    if seg == [] {
      assert seg + rest == rest;
    }
  }

  /** The kinds of lines. */
  lemma Kinds(d: Line)
    ensures IsExec(d) ==> d.Plain? || d.Block?
    ensures IsPipe(d) ==> !d.Marked? && !d.Listed? && IsMarked(d)
    ensures IsMarked(d) ==> !d.Listed? && IsLine(d)
  {
    if d.Marked? {
    } else if d.Piped? {
    } else {
    }
  }

  lemma Join(a: seq<Tok>, t: Tok, b: seq<Tok>, rest: seq<Tok>)
    ensures a + [t] + b + rest == a + ([t] + (b + rest)) && ([t] + (b + rest))[1..] == b + rest
  {
  }

  lemma {:induction false} ExecRead(d: Line, rest: seq<Tok>)
    requires IsExec(d) && AtStop(rest)
    ensures PExec(Tokens(d) + rest) == Ok(Value(d), rest)
    decreases d, 0
  {
    if d.Plain? {
      StopWhole(d.seg, rest);
      NotOpen(d.seg, rest);
      SimpleExact(d.seg + rest);
    } else {
      BlockJoin(Tokens(d.line), d.redirs, rest);
      LineRead(d.line, [Sym(')')] + (d.redirs + rest));
      RedirsRead([], d.redirs, rest);
      BlockRead(Tokens(d) + rest, Value(d.line), [Sym(')')] + (d.redirs + rest), RedirsFrom(d.redirs, 0), rest);
    }
  }

  lemma BlockJoin(l: seq<Tok>, redirs: seq<Tok>, rest: seq<Tok>)
    ensures var ts := [Sym('(')] + l + [Sym(')')] + redirs + rest;
            ts[0] == Sym('(') && ts[1..] == l + ([Sym(')')] + (redirs + rest))
    ensures ([Sym(')')] + (redirs + rest))[1..] == redirs + rest
  {
  }

  lemma BlockRead(ts: seq<Tok>, c: Cmd, more: seq<Tok>, rs: seq<Redirect>, rest: seq<Tok>)
    requires At(ts, '(') && PLine(ts[1..]) == Ok(c, more) && At(more, ')') && PRedirs([], more[1..]) == Redirs([] + rs, rest)
    ensures PExec(ts) == Ok(Wrap(c, rs), rest)
  {
    assert [] + rs == rs;
  }

  lemma {:induction false} PipeRead(d: Line, rest: seq<Tok>)
    requires IsPipe(d) && AtStop(rest) && !At(rest, '|')
    ensures PPipe(Tokens(d) + rest) == Ok(Value(d), rest)
    decreases d, 1
  {
    if d.Piped? {
      var more := [Sym('|')] + (Tokens(d.right) + rest);
      Join(Tokens(d.left), Sym('|'), Tokens(d.right), rest);
      ExecRead(d.left, more);
      PipeRead(d.right, rest);
    } else {
      ExecRead(d, rest);
    }
  }

  /** parsepipe and the loop of parseline. */
  function Marks(ts: seq<Tok>): Result {
    match PPipe(ts)
    case Err => Err
    case Ok(c, rest) => PBacks(c, rest)
  }

  lemma {:induction false} MarkedRead(d: Line, rest: seq<Tok>)
    requires IsMarked(d) && AtStop(rest) && !At(rest, '|')
    ensures Marks(Tokens(d) + rest) == PBacks(Value(d), rest)
    decreases d, 2
  {
    if d.Marked? {
      var more := [Sym('&')] + rest;
      MarkedRead(d.line, more);
      assert Tokens(d) + rest == Tokens(d.line) + more && more[1..] == rest;
    } else {
      PipeRead(d, rest);
    }
  }

  lemma {:induction false} LineRead(d: Line, rest: seq<Tok>)
    requires IsLine(d) && (rest == [] || At(rest, ')'))
    ensures PLine(Tokens(d) + rest) == Ok(Value(d), rest)
    decreases d, 3
  {
    if d.Listed? {
      var more := [Sym(';')] + (Tokens(d.right) + rest);
      Join(Tokens(d.left), Sym(';'), Tokens(d.right), rest);
      MarkedRead(d.left, more);
      LineRead(d.right, rest);
    } else {
      MarkedRead(d, rest);
    }
  }

  // ----- Whatever is parsed is a line -----

  lemma {:induction false} ExecShape(ts: seq<Tok>) returns (d: Line)
    requires PExec(ts).Ok?
    ensures IsExec(d) && Value(d) == PExec(ts).cmd && ts == Tokens(d) + PExec(ts).rest
    decreases |ts|, 0
  {
    if At(ts, '(') {
      var l := LineShape(ts[1..]);
      var rest := PLine(ts[1..]).rest;
      var k := RedirsExact([], rest[1..]);
      var redirs := rest[1..][..k];
      d := Block(l, redirs);
      assert [] + RedirsFrom(redirs, 0) == RedirsFrom(redirs, 0);
      BlockText(ts, l, redirs, rest, k);
    } else {
      d := PlainShape(ts);
    }
  }

  lemma PlainShape(ts: seq<Tok>) returns (d: Line)
    requires PExec(ts).Ok? && !At(ts, '(')
    ensures IsExec(d) && Value(d) == PExec(ts).cmd && ts == Tokens(d) + PExec(ts).rest
  {
    SimpleExact(ts);
    var n := StopAt(ts);
    PrefixPlain(ts, n);
    d := Plain(ts[..n]);
  }

  lemma PrefixPlain(ts: seq<Tok>, n: nat)
    requires n <= |ts| && !At(ts, '(') && forall j :: 0 <= j < n ==> !StopTok(ts[j])
    ensures ts == ts[..n] + ts[n..] && !At(ts[..n], '(') && NoStop(ts[..n])
  {
  }

  lemma BlockText(ts: seq<Tok>, l: Line, redirs: seq<Tok>, rest: seq<Tok>, k: nat)
    requires At(ts, '(') && ts[1..] == Tokens(l) + rest && At(rest, ')') && k <= |rest| - 1 && redirs == rest[1..][..k]
    ensures ts == Tokens(Block(l, redirs)) + rest[1..][k..]
  {
    assert ts == [Sym('(')] + ts[1..] && rest == [Sym(')')] + rest[1..] && rest[1..] == redirs + rest[1..][k..];
  }

  lemma JoinAt(a: seq<Tok>, ts: seq<Tok>, b: seq<Tok>, rest: seq<Tok>)
    requires ts != [] && ts[1..] == b + rest
    ensures a + ts == a + [ts[0]] + b + rest
  {
    assert ts == [ts[0]] + ts[1..];
  }

  lemma {:induction false} PipeShape(ts: seq<Tok>) returns (d: Line)
    requires PPipe(ts).Ok?
    ensures IsPipe(d) && Value(d) == PPipe(ts).cmd && ts == Tokens(d) + PPipe(ts).rest
    decreases |ts|, 1
  {
    var l := ExecShape(ts);
    var rest := PExec(ts).rest;
    if At(rest, '|') {
      var r := PipeShape(rest[1..]);
      d := Piped(l, r);
      JoinAt(Tokens(l), rest, Tokens(r), PPipe(rest[1..]).rest);
    } else {
      Kinds(l);
      d := l;
    }
  }

  lemma {:induction false} MarksShape(l: Line, ts: seq<Tok>) returns (d: Line)
    requires IsMarked(l)
    ensures IsMarked(d) && Value(d) == PBacks(Value(l), ts).cmd && Tokens(l) + ts == Tokens(d) + PBacks(Value(l), ts).rest
    decreases |ts|
  {
    if At(ts, '&') {
      d := MarksShape(Marked(l), ts[1..]);
      JoinAt(Tokens(l), ts, [], ts[1..]);
      assert Tokens(l) + [Sym('&')] + [] == Tokens(Marked(l));
    } else {
      d := l;
    }
  }

  lemma {:induction false} LineShape(ts: seq<Tok>) returns (d: Line)
    requires PLine(ts).Ok?
    ensures IsLine(d) && Value(d) == PLine(ts).cmd && ts == Tokens(d) + PLine(ts).rest
    decreases |ts|, 2
  {
    var p := PipeShape(ts);
    Kinds(p);
    var l := MarksShape(p, PPipe(ts).rest);
    Kinds(l);
    var rest := PBacks(PPipe(ts).cmd, PPipe(ts).rest).rest;
    if At(rest, ';') {
      var r := LineShape(rest[1..]);
      d := Listed(l, r);
      JoinAt(Tokens(l), rest, Tokens(r), PLine(rest[1..]).rest);
    } else {
      d := l;
    }
  }

  /** parsecmd accepts exactly the lines of the grammar, with the command that the grammar gives them. On
      everything else it panics: on leftovers too. */
  lemma {:induction false} LineExact(ts: seq<Tok>, c: Cmd)
    ensures PLine(ts) == Ok(c, []) <==> exists d :: IsLine(d) && Tokens(d) == ts && Value(d) == c
  {
    if PLine(ts) == Ok(c, []) {
      var d := LineShape(ts);
      assert Tokens(d) + [] == Tokens(d);
    }
    if d :| IsLine(d) && Tokens(d) == ts && Value(d) == c {
      LineRead(d, []);
      assert Tokens(d) + [] == ts;
    }
  }
}
