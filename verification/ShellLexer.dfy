/** The tokens of a command line (gettoken and peek of user/sh.c), and spelling tokens so that they
    are read back. */
module ShellLexer {
  import opened ShellGrammar
  import opened ShellSyntax

  predicate Space(c: char) {
    c == ' ' || c == '\t' || c == '\r' || c == '\n' || c == '\U{000B}'
  }

  predicate Symbol(c: char) {
    c == '<' || c == '|' || c == '>' || c == '&' || c == ';' || c == '(' || c == ')'
  }

  predicate WordChar(c: char) {
    !Space(c) && !Symbol(c)
  }

  /** Without leading white space. */
  function Skip(s: string): (r: string)
    ensures |r| <= |s| && (r == "" || !Space(r[0]))
  {
    if s != "" && Space(s[0]) then Skip(s[1..]) else s
  }

  /** How many word characters s begins with. */
  function WordLen(s: string): (n: nat)
    ensures n <= |s| && (s != "" && WordChar(s[0]) ==> n > 0)
  {
    if s != "" && WordChar(s[0]) then 1 + WordLen(s[1..]) else 0
  }

  /** The token at the start of s, and its length. */
  function Token(s: string): (r: (Tok, nat))
    requires s != "" && !Space(s[0])
    ensures 0 < r.1 <= |s| && (r.0.Word? ==> r.0.w == s[..r.1])
  {
    if s[0] == '>' then (if |s| > 1 && s[1] == '>' then (App, 2) else (Sym('>'), 1))
    else if Symbol(s[0]) then (Sym(s[0]), 1)
    else (Word(s[..WordLen(s)]), WordLen(s))
  }

  function Lex(s: string): seq<Tok>
    decreases |s|
  {
    var t := Skip(s);
    if t == "" then []
    else
      var (tok, n) := Token(t);
      [tok] + Lex(t[n..])
  }

  lemma LexSkip(s: string)
    ensures Lex(Skip(s)) == Lex(s)
  {
    assert Skip(Skip(s)) == Skip(s);
  }

  /** parsecmd: the whole line must be used up. */
  function Parse(s: string): Result {
    match PLine(Lex(s))
    case Ok(c, rest) => if rest == [] then Ok(c, []) else Err
    case Err => Err
  }

  // ----- Spelling -----

  function Text(t: Tok): string {
    match t
    case Sym(c) => [c]
    case App => ">>"
    case Word(w) => w
  }

  /** A word that a line can hold: a C string of word characters. */
  ghost predicate GoodWord(w: string) {
    w != "" && forall i :: 0 <= i < |w| ==> WordChar(w[i]) && w[i] != '\0'
  }

  ghost predicate GoodTok(t: Tok) {
    match t
    case Sym(c) => Symbol(c)
    case App => true
    case Word(w) => GoodWord(w)
  }

  ghost predicate AllGood(ts: seq<Tok>) {
    forall i :: 0 <= i < |ts| ==> GoodTok(ts[i])
  }

  /** Each token and a blank. */
  function Spell(ts: seq<Tok>): string {
    if ts == [] then "" else Text(ts[0]) + " " + Spell(ts[1..])
  }

  lemma {:induction false} WordLenText(w: string, s: string)
    requires forall i :: 0 <= i < |w| ==> WordChar(w[i])
    ensures WordLen(w + (" " + s)) == |w|
  {
    if w != "" {
      WordLenText(w[1..], s);
      assert (w + (" " + s))[1..] == w[1..] + (" " + s);
    }
  }

  lemma LexText(t: Tok, s: string)
    requires GoodTok(t)
    ensures Lex(Text(t) + " " + s) == [t] + Lex(s)
  {
    var r := Text(t) + " " + s;
    assert r == Text(t) + (" " + s);
    assert !Space(r[0]);
    if t.Word? {
      WordLenText(t.w, s);
      assert r[..|t.w|] == t.w;
    }
    assert Token(r) == (t, |Text(t)|);
    assert r[|Text(t)|..] == " " + s;
    assert (" " + s)[1..] == s;
    assert Lex(" " + s) == Lex(s);
  }

  lemma {:induction false} LexSpell(ts: seq<Tok>)
    requires AllGood(ts)
    ensures Lex(Spell(ts)) == ts
    decreases |ts|
  {
    if ts == [] {
    } else {
      HeadTail(ts);
      LexSpell(ts[1..]);
      LexText(ts[0], Spell(ts[1..]));
    }
  }

  // ----- What any string is lexed to -----

  /** s without its white space. */
  ghost function Strip(s: string): string {
    if s == "" then "" else (if Space(s[0]) then "" else [s[0]]) + Strip(s[1..])
  }

  ghost function Flatten(ts: seq<Tok>): string {
    if ts == [] then "" else Text(ts[0]) + Flatten(ts[1..])
  }

  lemma {:induction false} StripPart(s: string, n: nat)
    requires n <= |s| && forall i :: 0 <= i < n ==> !Space(s[i])
    ensures Strip(s) == s[..n] + Strip(s[n..])
  {
    if n > 0 {
      StripPart(s[1..], n - 1);
      assert s[1..][n - 1..] == s[n..] && s[..n] == [s[0]] + s[1..][..n - 1];
    } else {
      assert s[0..] == s;
    }
  }

  lemma {:induction false} WordLenIs(s: string)
    ensures (forall i :: 0 <= i < WordLen(s) ==> WordChar(s[i])) && (WordLen(s) < |s| ==> !WordChar(s[WordLen(s)]))
  {
    if s != "" && WordChar(s[0]) {
      WordLenIs(s[1..]);
    }
  }

  /** A token is a symbol, '>>' or a word of word characters, as long as can be, and is spelled as it stands. */
  lemma TokenIs(s: string)
    requires s != "" && !Space(s[0]) && '\0' !in s
    ensures var (t, n) := Token(s);
            && GoodTok(t) && Text(t) == s[..n] && (forall i :: 0 <= i < n ==> !Space(s[i]))
            && (t.Word? && n < |s| ==> !WordChar(s[n])) && (t == Sym('>') && n < |s| ==> s[n] != '>')
  {
    WordLenIs(s);
    assert forall i :: 0 <= i < |s| ==> s[i] in s;
  }

  lemma {:induction false} SkipStrip(s: string)
    ensures Strip(Skip(s)) == Strip(s) && forall c :: c in Skip(s) ==> c in s
  {
    if s != "" && Space(s[0]) {
      SkipStrip(s[1..]);
    }
  }

  /** Lexing loses nothing but white space, and gives proper tokens only. */
  lemma {:induction false} LexIs(s: string)
    requires '\0' !in s
    ensures Flatten(Lex(s)) == Strip(s) && AllGood(Lex(s))
    decreases |s|
  {
    SkipStrip(s);
    var t := Skip(s);
    if t != "" {
      TokenIs(t);
      var (tok, n) := Token(t);
      LexIs(t[n..]);
      StripPart(t, n);
      LexCons(tok, Lex(t[n..]));
    }
  }

  lemma LexCons(tok: Tok, ts: seq<Tok>)
    requires GoodTok(tok) && AllGood(ts)
    ensures Flatten([tok] + ts) == Text(tok) + Flatten(ts) && AllGood([tok] + ts)
  {
    assert ([tok] + ts)[1..] == ts;
  }

  /** What is spelled is a C string. */
  lemma {:induction false} SpellString(ts: seq<Tok>)
    requires AllGood(ts)
    ensures '\0' !in Spell(ts)
    decreases |ts|
  {
    if ts != [] {
      HeadTail(ts);
      SpellString(ts[1..]);
      assert GoodTok(ts[0]) && '\0' !in Text(ts[0]);
    }
  }

  lemma HeadTail(ts: seq<Tok>)
    requires ts != []
    ensures [ts[0]] + ts[1..] == ts && Spell(ts) == Text(ts[0]) + " " + Spell(ts[1..])
    ensures AllGood(ts) ==> GoodTok(ts[0]) && AllGood(ts[1..])
  {
  }

  // ----- Commands -----

  ghost predicate Good(c: Cmd) {
    match c
    case Exec(argv) => forall i :: 0 <= i < |argv| ==> GoodWord(argv[i])
    case Redir(x, f, _) => Good(x) && GoodWord(f)
    case Pipe(l, r) => Good(l) && Good(r)
    case List(l, r) => Good(l) && Good(r)
    case Back(x) => Good(x)
  }

  lemma {:induction false} GoodRedirs(rs: seq<Redirect>)
    requires forall i :: 0 <= i < |rs| ==> GoodWord(rs[i].file)
    ensures AllGood(TRedirs(rs))
    decreases |rs|
  {
    if rs != [] {
      GoodRedirs(rs[1..]);
    }
  }

  lemma {:induction false} GoodBase(c: Cmd)
    requires Good(c)
    ensures Good(Base(c)) && forall i :: 0 <= i < |Rs(c)| ==> GoodWord(Rs(c)[i].file)
  {
    if c.Redir? {
      GoodBase(c.cmd);
    }
  }

  lemma {:induction false} GoodExec(c: Cmd)
    requires Good(c)
    ensures AllGood(TExec(c))
    decreases c, 0
  {
    GoodBase(c);
    GoodRedirs(Rs(c));
    var b := Base(c);
    if !b.Exec? {
      GoodInner(b);
    }
  }

  lemma {:induction false} GoodInner(b: Cmd)
    requires Good(b) && !b.Redir?
    ensures AllGood(Inner(b))
    decreases b, 0, 1
  {
    match b
    case Exec(argv) =>
    case List(l, r) =>
      GoodBack(l);
      GoodLine(r);
    case Back(x) => GoodBack(x);
    case Pipe(l, r) =>
      GoodExec(l);
      GoodPipe(r);
  }

  lemma {:induction false} GoodPipe(c: Cmd)
    requires Good(c)
    ensures AllGood(TPipe(c))
    decreases c, 1
  {
    if c.Pipe? {
      GoodExec(c.left);
      GoodPipe(c.right);
    } else {
      GoodExec(c);
    }
  }

  lemma {:induction false} GoodBack(c: Cmd)
    requires Good(c)
    ensures AllGood(TBack(c))
    decreases c, 2
  {
    if c.Back? {
      GoodBack(c.cmd);
    } else {
      GoodPipe(c);
    }
  }

  lemma {:induction false} GoodLine(c: Cmd)
    requires Good(c)
    ensures AllGood(TLine(c))
    decreases c, 3
  {
    if c.List? {
      GoodBack(c.left);
      GoodLine(c.right);
    } else {
      GoodBack(c);
    }
  }

  /** A command with proper words, written with parentheses where the grammar needs them, parses to
      itself exactly when no part of it has ten arguments or more; else parseexec panics. What is
      written is a C string. */
  lemma {:induction false} RoundTrip(c: Cmd)
    requires Good(c)
    ensures '\0' !in Spell(TLine(c))
    ensures Parse(Spell(TLine(c))) == if Fits(c) then Ok(c, []) else Err
  {
    GoodLine(c);
    LexSpell(TLine(c));
    SpellString(TLine(c));
    assert TLine(c) + [] == TLine(c);
    if Fits(c) {
      RtLine(c, []);
    } else {
      FullLine(c, []);
    }
  }

  /** A string parses to a command exactly if its tokens make up a line of the grammar with that command; the
      shell panics on all others. */
  lemma ParseExact(s: string, c: Cmd)
    ensures Parse(s) == Ok(c, []) <==> exists d :: IsLine(d) && Tokens(d) == Lex(s) && Value(d) == c
    ensures Parse(s) == Err <==> forall x :: Parse(s) != Ok(x, [])
  {
    LineExact(Lex(s), c);
  }
}
