/** The recursive-descent parser of user/sh.c on a buffer and a cursor, and nulterminate. */
module ShellParser {
  import opened ShellGrammar
  import opened ShellLexer

  /** A counted string: the pointers q and eq into the buffer. */
  datatype Slice = Slice(q: nat, eq: nat)

  datatype SRedir = SRedir(file: Slice, mode: Mode)

  datatype Tree =
    | ExecNode(argv: seq<Slice>)
    | RedirNode(cmd: Tree, file: Slice, mode: Mode)
    | PipeNode(left: Tree, right: Tree)
    | ListNode(left: Tree, right: Tree)
    | BackNode(cmd: Tree)

  /** A whole word of s: word characters only, and none directly after. */
  ghost predicate Placed(x: Slice, s: string) {
    && x.q < x.eq <= |s|
    && (forall i :: x.q <= i < x.eq ==> WordChar(s[i]))
    && (x.eq < |s| ==> !WordChar(s[x.eq]))
  }

  ghost predicate AllPlaced(xs: seq<Slice>, s: string) {
    forall i :: 0 <= i < |xs| ==> Placed(xs[i], s)
  }

  ghost predicate RsPlaced(rs: seq<SRedir>, s: string) {
    forall i :: 0 <= i < |rs| ==> Placed(rs[i].file, s)
  }

  ghost predicate TreePlaced(t: Tree, s: string) {
    match t
    case ExecNode(argv) => AllPlaced(argv, s)
    case RedirNode(x, f, _) => TreePlaced(x, s) && Placed(f, s)
    case PipeNode(l, r) => TreePlaced(l, s) && TreePlaced(r, s)
    case ListNode(l, r) => TreePlaced(l, s) && TreePlaced(r, s)
    case BackNode(x) => TreePlaced(x, s)
  }

  // ----- The command that a tree over s stands for -----

  ghost function Str(x: Slice, s: string): string {
    if x.q <= x.eq <= |s| then s[x.q..x.eq] else ""
  }

  ghost function Strs(xs: seq<Slice>, s: string): seq<string> {
    seq(|xs|, i requires 0 <= i < |xs| => Str(xs[i], s))
  }

  ghost function EraseRs(rs: seq<SRedir>, s: string): seq<Redirect> {
    seq(|rs|, i requires 0 <= i < |rs| => Redirect(Str(rs[i].file, s), rs[i].mode))
  }

  lemma EraseOne(rs: seq<SRedir>, r: SRedir, s: string)
    ensures EraseRs(rs + [r], s) == EraseRs(rs, s) + [Redirect(Str(r.file, s), r.mode)]
    ensures RsPlaced(rs, s) && Placed(r.file, s) ==> RsPlaced(rs + [r], s)
  {
  }

  ghost function Erase(t: Tree, s: string): Cmd {
    match t
    case ExecNode(argv) => Exec(Strs(argv, s))
    case RedirNode(x, f, m) => Redir(Erase(x, s), Str(f, s), m)
    case PipeNode(l, r) => Pipe(Erase(l, s), Erase(r, s))
    case ListNode(l, r) => List(Erase(l, s), Erase(r, s))
    case BackNode(x) => Back(Erase(x, s))
  }

  function WrapTree(t: Tree, rs: seq<SRedir>): Tree
    decreases |rs|
  {
    if rs == [] then t else RedirNode(WrapTree(t, rs[..|rs| - 1]), rs[|rs| - 1].file, rs[|rs| - 1].mode)
  }

  lemma {:induction false} WrapErase(t: Tree, rs: seq<SRedir>, s: string)
    requires TreePlaced(t, s) && RsPlaced(rs, s)
    ensures Erase(WrapTree(t, rs), s) == Wrap(Erase(t, s), EraseRs(rs, s)) && TreePlaced(WrapTree(t, rs), s)
    decreases |rs|
  {
    if rs != [] {
      WrapErase(t, rs[..|rs| - 1], s);
      assert EraseRs(rs, s)[..|rs| - 1] == EraseRs(rs[..|rs| - 1], s);
    }
  }

  // ----- First characters and tokens -----

  /** ret is what gettoken returns for the token. */
  ghost predicate IsKind(ret: char, t: Tok) {
    && (ret == 'a' <==> t.Word?) && (ret == '+' <==> t == App)
    && (forall c {:trigger Sym(c)} :: t == Sym(c) <==> ret == c && Symbol(c))
  }

  lemma LexFirst(r: string)
    requires r != "" && !Space(r[0])
    ensures Lex(r) == [Token(r).0] + Lex(r[Token(r).1..])
  {
    assert Skip(r) == r;
  }

  /** The first character tells which symbol comes next. */
  lemma FirstSymbol(r: string, c: char)
    requires (r != "" ==> !Space(r[0])) && Symbol(c) && c != '>'
    ensures r != "" && r[0] == c <==> At(Lex(r), c)
  {
    if r != "" {
      LexFirst(r);
    }
  }

  lemma FirstRedir(r: string)
    requires r != "" ==> !Space(r[0])
    ensures r != "" && (r[0] == '<' || r[0] == '>') <==> AtRedir(Lex(r))
  {
    if r != "" {
      LexFirst(r);
    }
  }

  lemma {:induction false} WordLenIs(r: string, k: nat)
    requires k <= |r| && (forall i :: 0 <= i < k ==> WordChar(r[i])) && (k < |r| ==> !WordChar(r[k]))
    ensures WordLen(r) == k
  {
    if k > 0 {
      WordLenIs(r[1..], k - 1);
    }
  }

  /** What gettoken finds at q, from the end of its word loop on. */
  lemma WordToken(s: string, q: nat, e: nat)
    requires Placed(Slice(q, e), s)
    ensures s[q..] != "" && !Space(s[q..][0]) && Token(s[q..]) == (Word(s[q..e]), e - q)
  {
    var r := s[q..];
    assert r[0] == s[q];
    WordLenIs(r, e - q);
    assert r[..e - q] == s[q..e];
  }

  lemma SymbolToken(s: string, q: nat)
    requires q < |s| && Symbol(s[q])
    ensures s[q..] != "" && !Space(s[q..][0])
    ensures Token(s[q..]) == if s[q] == '>' && q + 1 < |s| && s[q + 1] == '>' then (App, 2) else (Sym(s[q]), 1)
  {
    var r := s[q..];
    assert r[0] == s[q];
    assert q + 1 < |s| ==> r[1] == s[q + 1];
  }

  lemma AfterToken(s: string, q: nat, n: nat)
    requires q < |s| && !Space(s[q]) && s[q..] != "" && !Space(s[q..][0]) && Token(s[q..]).1 == n
    ensures q + n <= |s| && Lex(s[q..]) == [Token(s[q..]).0] + Lex(s[q + n..])
  {
    LexFirst(s[q..]);
    assert s[q..][n..] == s[q + n..];
  }

  /** What a parsing method returned is what the grammar says: a tree and the tokens left, or a panic. */
  ghost predicate Agrees(r: Result, ok: bool, t: Tree, s: string, rest: seq<Tok>) {
    if ok then TreePlaced(t, s) && r == Ok(Erase(t, s), rest) else r == Err
  }

  const NONE: Tree := Tree.ExecNode([])

  class Parser {
    const s: string
    var pos: nat

    ghost predicate Valid()
      reads this
    {
      pos <= |s|
    }

    /** The tokens that remain. */
    ghost function Rest(): seq<Tok>
      requires Valid()
      reads this
    {
      Lex(s[pos..])
    }

    constructor (s: string)
      ensures this.s == s && pos == 0 && Valid()
    {
      this.s, pos := s, 0;
    }

    method SkipSpace()
      requires Valid()
      modifies this`pos
      ensures Valid() && old(pos) <= pos && s[pos..] == Skip(s[old(pos)..]) && Rest() == old(Rest())
    {
      ghost var r := s[pos..];
      while pos < |s| && Space(s[pos])
        invariant old(pos) <= pos <= |s| && Skip(s[pos..]) == Skip(r)
      {
        assert s[pos..][1..] == s[pos + 1..];
        pos := pos + 1;
      }
      LexSkip(r);
    }

    /** peek: whether the next token begins with one of toks. */
    method Peek(toks: string) returns (b: bool)
      requires Valid()
      modifies this`pos
      ensures Valid() && old(pos) <= pos && Rest() == old(Rest()) && (pos < |s| ==> !Space(s[pos]))
      ensures b <==> pos < |s| && s[pos] in toks
    {
      SkipSpace();
      assert pos < |s| ==> s[pos..][0] == s[pos];
      b := pos < |s| && s[pos] in toks;
    }

    /** gettoken: what kind of token comes next, and where it lies. */
    method GetToken() returns (ret: char, x: Slice)
      requires Valid()
      modifies this`pos
      ensures Valid() && old(pos) <= pos
      ensures old(Rest()) == [] ==> ret == '\0' && Rest() == []
      ensures old(Rest()) != [] ==> pos > old(pos) && IsKind(ret, old(Rest())[0]) && Rest() == old(Rest())[1..]
      ensures old(Rest()) != [] && old(Rest())[0].Word? ==> Placed(x, s) && old(Rest())[0].w == Str(x, s)
    {
      SkipSpace();
      var q := pos;
      if pos == |s| {
        assert s[q..] == "";
        return '\0', Slice(q, q);
      }
      assert s[q..][0] == s[q];
      ret, pos := ScanToken(q);
      x := Slice(q, pos);
      AfterToken(s, q, pos - q);
      SkipSpace();
    }

    /** The switch of gettoken: the kind of the token at q, and its end. */
    method ScanToken(q: nat) returns (ret: char, e: nat)
      requires q < |s| && !Space(s[q]) && s[q..] != "" && !Space(s[q..][0])
      ensures q < e <= |s| && Token(s[q..]).1 == e - q && IsKind(ret, Token(s[q..]).0)
      ensures Token(s[q..]).0.Word? ==> Placed(Slice(q, e), s) && Token(s[q..]).0.w == Str(Slice(q, e), s)
    {
      ret := s[q];
      if Symbol(s[q]) {
        SymbolToken(s, q);
        e := q + 1;
        if ret == '>' && e < |s| && s[e] == '>' {
          ret, e := '+', e + 1;
        }
      } else {
        ret := 'a';
        e := EndOfWord(q);
        WordToken(s, q, e);
      }
    }

    method EndOfWord(q: nat) returns (e: nat)
      requires q < |s| && WordChar(s[q])
      ensures Placed(Slice(q, e), s)
    {
      e := q;
      while e < |s| && !Space(s[e]) && !Symbol(s[e])
        invariant q <= e <= |s| && (forall i :: q <= i < e ==> WordChar(s[i])) && (e == q ==> WordChar(s[q]))
      {
        e := e + 1;
      }
    }

    method PeekSymbol(c: char) returns (b: bool)
      requires Valid() && Symbol(c) && c != '>'
      modifies this`pos
      ensures Valid() && old(pos) <= pos && Rest() == old(Rest()) && (b <==> At(Rest(), c))
    {
      b := Peek([c]);
      assert pos < |s| ==> s[pos..][0] == s[pos];
      FirstSymbol(s[pos..], c);
    }

    /** peek(ps, es, "<>") */
    method PeekRedir() returns (b: bool)
      requires Valid()
      modifies this`pos
      ensures Valid() && old(pos) <= pos && Rest() == old(Rest()) && (b <==> AtRedir(Rest()))
    {
      b := Peek("<>");
      assert pos < |s| ==> s[pos..][0] == s[pos];
      FirstRedir(s[pos..]);
    }

    /** peek(ps, es, "|)&;") */
    method PeekStop() returns (b: bool)
      requires Valid()
      modifies this`pos
      ensures Valid() && old(pos) <= pos && Rest() == old(Rest()) && (b <==> Rest() != [] && AtStop(Rest()))
    {
      b := Peek("|)&;");
      assert pos < |s| ==> s[pos..][0] == s[pos];
      FirstSymbol(s[pos..], '|');
      FirstSymbol(s[pos..], ')');
      FirstSymbol(s[pos..], '&');
      FirstSymbol(s[pos..], ';');
    }

    /** One redirection. */
    method ParseRedir(ghost done: seq<Redirect>) returns (ok: bool, r: SRedir)
      requires Valid() && AtRedir(Rest())
      modifies this`pos
      ensures Valid() && old(pos) < pos && (ok ==> Placed(r.file, s))
      ensures PRedirs(done, old(Rest())) == if ok then PRedirs(done + [Redirect(Str(r.file, s), r.mode)], Rest()) else Missing
    {
      ghost var ts := Rest();
      var tok, _ := GetToken();
      var kind, x := GetToken();
      assert |ts| >= 2 ==> ts[1] == ts[1..][0] && ts[2..] == ts[1..][1..];
      r := SRedir(x, if tok == '<' then In else if tok == '>' then Out else Append);
      ok := kind == 'a';
    }

    /** parseredirs: false stands for the panic. */
    method ParseRedirs() returns (ok: bool, rs: seq<SRedir>)
      requires Valid()
      modifies this`pos
      ensures Valid() && old(pos) <= pos && RsPlaced(rs, s)
      ensures PRedirs([], old(Rest())) == if ok then Redirs(EraseRs(rs, s), Rest()) else Missing
    {
      rs := [];
      var more := PeekRedir();
      assert EraseRs(rs, s) == [];
      while more
        invariant Valid() && old(pos) <= pos && RsPlaced(rs, s) && (more <==> AtRedir(Rest()))
        invariant PRedirs([], old(Rest())) == PRedirs(EraseRs(rs, s), Rest())
        decreases |s| - pos
      {
        var r;
        ok, r := ParseRedir(EraseRs(rs, s));
        if !ok {
          return false, rs;
        }
        EraseOne(rs, r, s);
        rs := rs + [r];
        more := PeekRedir();
      }
      return true, rs;
    }

    /** One more argument and the redirections after it. */
    method ParseArg(argv: seq<Slice>, rs: seq<SRedir>) returns (ok: bool, end: bool, argv': seq<Slice>, rs': seq<SRedir>)
      requires Valid() && AllPlaced(argv, s) && RsPlaced(rs, s) && (AtStop(Rest()) ==> Rest() == []) && |argv| < MAXARGS
      modifies this`pos
      ensures Valid() && old(pos) <= pos && AllPlaced(argv', s) && RsPlaced(rs', s)
      ensures end <==> old(Rest()) == []
      ensures end ==> ok && argv' == argv && rs' == rs && Rest() == []
      ensures ok && !end ==> pos > old(pos) && |argv'| < MAXARGS
      ensures PArgs(Strs(argv, s), EraseRs(rs, s), old(Rest())) == if ok then PArgs(Strs(argv', s), EraseRs(rs', s), Rest()) else Err
    {
      ghost var ts := Rest();
      argv', rs' := argv, rs;
      var tok, x := GetToken();
      if tok == '\0' {
        assert ts == [];
        return true, true, argv', rs';
      }
      if tok != 'a' {
        return false, false, argv', rs';
      }
      argv' := argv + [x];
      assert Strs(argv', s) == Strs(argv, s) + [Str(x, s)];
      if |argv'| >= MAXARGS {
        return false, false, argv', rs';
      }
      end := false;
      ok, rs' := ParseMoreRedirs(rs);
    }

    /** parseredirs around a command that has the redirections rs already. */
    method ParseMoreRedirs(rs: seq<SRedir>) returns (ok: bool, rs': seq<SRedir>)
      requires Valid() && RsPlaced(rs, s)
      modifies this`pos
      ensures Valid() && old(pos) <= pos && RsPlaced(rs', s)
      ensures PRedirs(EraseRs(rs, s), old(Rest())) == if ok then Redirs(EraseRs(rs', s), Rest()) else Missing
    {
      var more;
      ghost var ts := Rest();
      ok, more := ParseRedirs();
      PRedirsOnto(EraseRs(rs, s), [], ts);
      assert EraseRs(rs, s) + [] == EraseRs(rs, s);
      rs' := rs + more;
      assert EraseRs(rs', s) == EraseRs(rs, s) + EraseRs(more, s);
    }

    /** The loop of parseexec. */
    method ParseArgs(rs0: seq<SRedir>) returns (ok: bool, t: Tree)
      requires Valid() && RsPlaced(rs0, s)
      modifies this`pos
      ensures Valid() && old(pos) <= pos
      ensures Agrees(PArgs([], EraseRs(rs0, s), old(Rest())), ok, t, s, Rest())
    {
      var argv: seq<Slice>, rs := [], rs0;
      var stop := PeekStop();
      assert Strs(argv, s) == [];
      while !stop
        invariant Valid() && old(pos) <= pos && AllPlaced(argv, s) && RsPlaced(rs, s) && |argv| < MAXARGS
        invariant stop <==> Rest() != [] && AtStop(Rest())
        invariant PArgs([], EraseRs(rs0, s), old(Rest())) == PArgs(Strs(argv, s), EraseRs(rs, s), Rest())
        decreases |s| - pos
      {
        var end;
        ok, end, argv, rs := ParseArg(argv, rs);
        if !ok {
          return false, NONE;
        }
        if end {
          break;
        }
        stop := PeekStop();
      }
      t := WrapTree(Tree.ExecNode(argv), rs);
      WrapErase(Tree.ExecNode(argv), rs, s);
      return true, t;
    }

    /** parseblock, after the '('. */
    method ParseBlock() returns (ok: bool, t: Tree)
      requires Valid() && At(Rest(), '(')
      modifies this`pos
      ensures Valid() && old(pos) <= pos && Agrees(PExec(old(Rest())), ok, t, s, Rest())
      decreases |s| - pos, 0
    {
      var _, _ := GetToken();
      ok, t := ParseLine();
      if !ok {
        return;
      }
      var close := PeekSymbol(')');
      if !close {
        return false, t;
      }
      var _, _ := GetToken();
      var good, rs := ParseRedirs();
      if !good {
        return false, t;
      }
      WrapErase(t, rs, s);
      return true, WrapTree(t, rs);
    }

    /** parseexec */
    method ParseExec() returns (ok: bool, t: Tree)
      requires Valid()
      modifies this`pos
      ensures Valid() && old(pos) <= pos && Agrees(PExec(old(Rest())), ok, t, s, Rest())
      decreases |s| - pos, 1
    {
      var open := PeekSymbol('(');
      if open {
        ok, t := ParseBlock();
        return;
      }
      var good, rs := ParseRedirs();
      if !good {
        return false, NONE;
      }
      ok, t := ParseArgs(rs);
    }

    /** parsepipe */
    method ParsePipe() returns (ok: bool, t: Tree)
      requires Valid()
      modifies this`pos
      ensures Valid() && old(pos) <= pos && Agrees(PPipe(old(Rest())), ok, t, s, Rest())
      decreases |s| - pos, 2
    {
      ok, t := ParseExec();
      if !ok {
        return;
      }
      var bar := PeekSymbol('|');
      if bar {
        var _, _ := GetToken();
        var right;
        ok, right := ParsePipe();
        t := Tree.PipeNode(t, right);
      }
    }

    /** parseline */
    method ParseLine() returns (ok: bool, t: Tree)
      requires Valid()
      modifies this`pos
      ensures Valid() && old(pos) <= pos && Agrees(PLine(old(Rest())), ok, t, s, Rest())
      decreases |s| - pos, 3
    {
      ok, t := ParsePipe();
      if !ok {
        return;
      }
      t := ParseBacks(t);
      var semi := PeekSymbol(';');
      if semi {
        var _, _ := GetToken();
        var right;
        ok, right := ParseLine();
        t := Tree.ListNode(t, right);
      }
    }

    /** The loop of parseline. */
    method ParseBacks(t0: Tree) returns (t: Tree)
      requires Valid() && TreePlaced(t0, s)
      modifies this`pos
      ensures Valid() && old(pos) <= pos && Agrees(PBacks(Erase(t0, s), old(Rest())), true, t, s, Rest())
    {
      t := t0;
      var amp := PeekSymbol('&');
      while amp
        invariant Valid() && old(pos) <= pos && TreePlaced(t, s) && (amp <==> At(Rest(), '&'))
        invariant PBacks(Erase(t0, s), old(Rest())) == PBacks(Erase(t, s), Rest())
        decreases |s| - pos
      {
        var _, _ := GetToken();
        t := Tree.BackNode(t);
        amp := PeekSymbol('&');
      }
    }

    /** parsecmd up to nulterminate: the tree, or a panic. */
    method ParseCmd() returns (ok: bool, t: Tree)
      requires pos == 0
      modifies this`pos
      ensures Agrees(Parse(s), ok, t, s, [])
    {
      assert s[0..] == s;
      ok, t := ParseLine();
      if !ok {
        return;
      }
      var _ := Peek("");
      if pos != |s| {
        LexNonempty(s[pos..]);
        return false, t;
      }
      assert s[pos..] == "";
    }
  }

  lemma LexNonempty(r: string)
    requires r != "" && !Space(r[0])
    ensures Lex(r) != []
  {
    LexFirst(r);
  }

  // ----- nulterminate -----

  /** Where the counted strings of a tree end. */
  function Ends(t: Tree): set<int> {
    match t
    case ExecNode(argv) => set i | 0 <= i < |argv| :: argv[i].eq
    case RedirNode(x, f, _) => Ends(x) + {f.eq}
    case PipeNode(l, r) => Ends(l) + Ends(r)
    case ListNode(l, r) => Ends(l) + Ends(r)
    case BackNode(x) => Ends(x)
  }

  /** The counted strings of a tree. */
  ghost predicate Names(t: Tree, x: Slice) {
    match t
    case ExecNode(argv) => x in argv
    case RedirNode(c, f, _) => x == f || Names(c, x)
    case PipeNode(l, r) => Names(l, x) || Names(r, x)
    case ListNode(l, r) => Names(l, x) || Names(r, x)
    case BackNode(c) => Names(c, x)
  }

  /** nulterminate: a 0 at the end of each counted string, nothing else. */
  method NulTerminate(buf: array<char>, t: Tree)
    requires forall e :: e in Ends(t) ==> 0 <= e < buf.Length
    modifies buf
    ensures forall i :: 0 <= i < buf.Length ==> buf[i] == if i in Ends(t) then '\0' else old(buf[i])
    decreases t
  {
    match t
    case ExecNode(argv) =>
      for i := 0 to |argv|
        invariant forall j :: 0 <= j < buf.Length ==>
                                buf[j] == if exists k :: 0 <= k < i && argv[k].eq == j then '\0' else old(buf[j])
      {
        assert argv[i].eq in Ends(t);
        buf[argv[i].eq] := '\0';
      }
    case RedirNode(x, f, _) =>
      assert Ends(x) <= Ends(t) && f.eq in Ends(t);
      NulTerminate(buf, x);
      buf[f.eq] := '\0';
    case PipeNode(l, r) =>
      assert Ends(l) <= Ends(t) && Ends(r) <= Ends(t);
      NulTerminate(buf, l);
      NulTerminate(buf, r);
    case ListNode(l, r) =>
      assert Ends(l) <= Ends(t) && Ends(r) <= Ends(t);
      NulTerminate(buf, l);
      NulTerminate(buf, r);
    case BackNode(x) =>
      assert Ends(x) <= Ends(t);
      NulTerminate(buf, x);
  }

  /** An end never lies inside a word. */
  lemma {:induction false} EndsOutside(t: Tree, s: string, e: int)
    requires TreePlaced(t, s) && e in Ends(t)
    ensures 0 <= e <= |s| && (e < |s| ==> !WordChar(s[e]))
  {
    match t
    case ExecNode(argv) =>
    case RedirNode(x, f, _) =>
      if e != f.eq {
        EndsOutside(x, s, e);
      }
    case PipeNode(l, r) =>
      if e in Ends(l) {
        EndsOutside(l, s, e);
      } else {
        EndsOutside(r, s, e);
      }
    case ListNode(l, r) =>
      if e in Ends(l) {
        EndsOutside(l, s, e);
      } else {
        EndsOutside(r, s, e);
      }
    case BackNode(x) => EndsOutside(x, s, e);
  }

  lemma {:induction false} NamesPlaced(t: Tree, s: string, x: Slice)
    requires TreePlaced(t, s) && Names(t, x)
    ensures Placed(x, s) && x.eq in Ends(t)
  {
    match t
    case ExecNode(argv) =>
    case RedirNode(c, f, _) =>
      if x != f {
        NamesPlaced(c, s, x);
      }
    case PipeNode(l, r) =>
      if Names(l, x) {
        NamesPlaced(l, s, x);
      } else {
        NamesPlaced(r, s, x);
      }
    case ListNode(l, r) =>
      if Names(l, x) {
        NamesPlaced(l, s, x);
      } else {
        NamesPlaced(r, s, x);
      }
    case BackNode(c) => NamesPlaced(c, s, x);
  }

  /** parsecmd on a C string: afterwards each argument and file name of the tree, read from its start up
      to the first 0, is the token it was parsed from. */
  method ParseBuffer(buf: array<char>, s: string) returns (ok: bool, t: Tree)
    requires buf.Length == |s| + 1 && buf[..] == s + ['\0'] && '\0' !in s
    modifies buf
    ensures Agrees(Parse(s), ok, t, s, [])
    ensures ok ==> forall x :: Names(t, x) ==> Placed(x, s) && buf[x.q..x.eq] == s[x.q..x.eq] && buf[x.eq] == '\0'
  {
    var p := new Parser(s);
    ok, t := p.ParseCmd();
    if ok {
      forall e | e in Ends(t)
        ensures 0 <= e <= |s| && (e < |s| ==> !WordChar(s[e]))
      {
        EndsOutside(t, s, e);
      }
      NulTerminate(buf, t);
      forall x | Names(t, x)
        ensures Placed(x, s) && buf[x.q..x.eq] == s[x.q..x.eq] && buf[x.eq] == '\0'
      {
        NamesPlaced(t, s, x);
        assert forall i :: x.q <= i < x.eq ==> buf[i] == old(buf[..])[i];
      }
    }
  }
}
