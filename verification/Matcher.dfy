/** The regular expression matcher of user/grep.c (The Practice of Programming, chapter 9). */
module Matcher {

  /** One character (or any, for '.'), or any number of them. */
  datatype Item = One(c: char) | Star(c: char)

  predicate Fits(c: char, x: char) {
    c == '.' || c == x
  }

  /** What a pattern without its leading '^' is made of: '*' binds to the one character before it, and
      a last '$' that is not starred is an anchor. */
  function Items(re: string): seq<Item> {
    if re == "" || re == "$" then []
    else if |re| >= 2 && re[1] == '*' then [Star(re[0])] + Items(re[2..])
    else [One(re[0])] + Items(re[1..])
  }

  function Anchored(re: string): bool {
    if re == "" then false
    else if |re| >= 2 && re[1] == '*' then Anchored(re[2..])
    else re == "$" || Anchored(re[1..])
  }

  // ----- The language of a pattern -----

  ghost predicate Matches(it: Item, s: string) {
    match it
    case One(c) => |s| == 1 && Fits(c, s[0])
    case Star(c) => forall i :: 0 <= i < |s| ==> Fits(c, s[i])
  }

  function Concat(ps: seq<string>): string {
    if ps == [] then "" else ps[0] + Concat(ps[1..])
  }

  /** ps cuts s into one piece for each item. */
  ghost predicate Cuts(items: seq<Item>, s: string, ps: seq<string>) {
    |ps| == |items| && Concat(ps) == s && forall i :: 0 <= i < |ps| ==> Matches(items[i], ps[i])
  }

  ghost predicate InLanguage(items: seq<Item>, s: string) {
    exists ps :: Cuts(items, s, ps)
  }

  /** Some prefix of text is in the language of re; all of text, if re is anchored at the end. */
  ghost predicate Prefix(re: string, text: string) {
    exists n: nat :: n <= |text| && InLanguage(Items(re), text[..n]) && (Anchored(re) ==> n == |text|)
  }

  /** The first item takes the first j characters. */
  ghost predicate FirstTakes(it: Item, items: seq<Item>, s: string, j: nat) {
    j <= |s| && Matches(it, s[..j]) && InLanguage(items, s[j..])
  }

  lemma CutFirst(it: Item, items: seq<Item>, s: string, ps: seq<string>)
    requires Cuts([it] + items, s, ps)
    ensures FirstTakes(it, items, s, |ps[0]|)
  {
    var all, j := [it] + items, |ps[0]|;
    assert s[..j] == ps[0] && s[j..] == Concat(ps[1..]);
    assert Matches(all[0], ps[0]);
    forall i | 0 <= i < |ps[1..]|
      ensures Matches(items[i], ps[1..][i])
    {
      assert Matches(all[i + 1], ps[i + 1]);
    }
    assert Cuts(items, s[j..], ps[1..]);
  }

  lemma JoinFirst(it: Item, items: seq<Item>, s: string, j: nat)
    requires FirstTakes(it, items, s, j)
    ensures InLanguage([it] + items, s)
  {
    var ps :| Cuts(items, s[j..], ps);
    var qs := [s[..j]] + ps;
    assert qs[1..] == ps && s == s[..j] + s[j..];
    assert Cuts([it] + items, s, qs);
  }

  lemma {:induction false} InLanguageFirst(it: Item, items: seq<Item>, s: string)
    ensures InLanguage([it] + items, s) <==> exists j: nat :: FirstTakes(it, items, s, j)
  {
    if ps :| Cuts([it] + items, s, ps) {
      CutFirst(it, items, s, ps);
    }
    if j: nat :| FirstTakes(it, items, s, j) {
      JoinFirst(it, items, s, j);
    }
  }

  lemma InLanguageEmpty(s: string)
    ensures InLanguage([], s) <==> s == ""
  {
    if s == "" {
      assert Cuts([], s, []);
    }
  }

  // ----- The cases of matchhere -----

  lemma PrefixEmpty(text: string)
    ensures Prefix("", text)
  {
    InLanguageEmpty(text[..0]);
  }

  lemma PrefixEnd(text: string)
    ensures Prefix("$", text) <==> text == ""
  {
    InLanguageEmpty(text[..|text|]);
  }

  lemma PrefixChar(re: string, text: string)
    requires re != "" && re != "$" && !(|re| >= 2 && re[1] == '*')
    ensures Prefix(re, text) <==> text != "" && Fits(re[0], text[0]) && Prefix(re[1..], text[1..])
  {
    var it, rest := One(re[0]), Items(re[1..]);
    if n: nat :| n <= |text| && InLanguage(Items(re), text[..n]) && (Anchored(re) ==> n == |text|) {
      InLanguageFirst(it, rest, text[..n]);
      var j: nat :| FirstTakes(it, rest, text[..n], j);
      assert text[..n][1..] == text[1..][..n - 1];
    }
    if text != "" && Fits(re[0], text[0]) && Prefix(re[1..], text[1..]) {
      var n: nat :| n <= |text[1..]| && InLanguage(rest, text[1..][..n]) && (Anchored(re[1..]) ==> n == |text[1..]|);
      InLanguageFirst(it, rest, text[..n + 1]);
      assert text[..n + 1][1..] == text[1..][..n];
      assert FirstTakes(it, rest, text[..n + 1], 1);
    }
  }

  /** The first k characters of text fit c. */
  ghost predicate AllFit(c: char, text: string, k: nat) {
    k <= |text| && forall i :: 0 <= i < k ==> Fits(c, text[i])
  }

  ghost predicate StarPrefix(c: char, re: string, text: string) {
    exists k: nat :: AllFit(c, text, k) && Prefix(re, text[k..])
  }

  lemma PrefixStar(re: string, text: string)
    requires |re| >= 2 && re[1] == '*'
    ensures Prefix(re, text) <==> StarPrefix(re[0], re[2..], text)
  {
    var it, rest := Star(re[0]), Items(re[2..]);
    if n: nat :| n <= |text| && InLanguage(Items(re), text[..n]) && (Anchored(re) ==> n == |text|) {
      InLanguageFirst(it, rest, text[..n]);
      var j: nat :| FirstTakes(it, rest, text[..n], j);
      assert text[..n][j..] == text[j..][..n - j];
      assert forall i :: 0 <= i < j ==> text[i] == text[..n][..j][i];
      assert AllFit(re[0], text, j) && Prefix(re[2..], text[j..]);
    }
    if k: nat :| AllFit(re[0], text, k) && Prefix(re[2..], text[k..]) {
      var n: nat :| n <= |text[k..]| && InLanguage(rest, text[k..][..n]) && (Anchored(re[2..]) ==> n == |text[k..]|);
      InLanguageFirst(it, rest, text[..k + n]);
      assert text[..k + n][k..] == text[k..][..n];
      assert FirstTakes(it, rest, text[..k + n], k);
    }
  }

  // ----- The code -----

  /** matchhere: whether re matches at the start of text. */
  method MatchHere(re: string, text: string) returns (b: bool)
    ensures b <==> Prefix(re, text)
    decreases |re|, 0
  {
    if re == "" {
      PrefixEmpty(text);
      return true;
    }
    if |re| >= 2 && re[1] == '*' {
      PrefixStar(re, text);
      b := MatchStar(re[0], re[2..], text);
      return;
    }
    if re == "$" {
      PrefixEnd(text);
      return text == "";
    }
    PrefixChar(re, text);
    if text != "" && (re[0] == '.' || re[0] == text[0]) {
      b := MatchHere(re[1..], text[1..]);
      return;
    }
    return false;
  }

  /** matchstar: whether c*re matches at the start of text. */
  method MatchStar(c: char, re: string, text: string) returns (b: bool)
    ensures b <==> StarPrefix(c, re, text)
    decreases |re|, 1
  {
    var i := 0;
    while true
      invariant 0 <= i <= |text| && AllFit(c, text, i)
      invariant forall k: nat :: k < i ==> !Prefix(re, text[k..])
      decreases |text| - i
    {
      b := MatchHere(re, text[i..]);
      if b {
        return;
      }
      if i == |text| || !(text[i] == c || c == '.') {
        return false;
      }
      i := i + 1;
    }
  }

  predicate Caret(re: string) {
    re != "" && re[0] == '^'
  }

  function Body(re: string): string {
    if Caret(re) then re[1..] else re
  }

  /** The substring from i to j is in the language of re, and lies where the anchors of re want it. */
  ghost predicate FoundAt(re: string, text: string, i: nat, j: nat) {
    && i <= j <= |text| && InLanguage(Items(Body(re)), text[i..j])
    && (Caret(re) ==> i == 0) && (Anchored(Body(re)) ==> j == |text|)
  }

  lemma FoundPrefix(re: string, text: string, i: nat)
    requires i <= |text| && (Caret(re) ==> i == 0)
    ensures Prefix(Body(re), text[i..]) <==> exists j: nat :: FoundAt(re, text, i, j)
  {
    var body := Body(re);
    if n: nat :| n <= |text[i..]| && InLanguage(Items(body), text[i..][..n]) && (Anchored(body) ==> n == |text[i..]|) {
      assert text[i..][..n] == text[i..i + n];
      assert FoundAt(re, text, i, i + n);
    }
    if j: nat :| FoundAt(re, text, i, j) {
      assert text[i..][..j - i] == text[i..j];
    }
  }

  /** match: whether some substring of text is in the language of re. */
  method Match(re: string, text: string) returns (b: bool)
    ensures b <==> exists i: nat, j: nat :: FoundAt(re, text, i, j)
  {
    if re != "" && re[0] == '^' {
      FoundPrefix(re, text, 0);
      assert text[0..] == text;
      b := MatchHere(re[1..], text);
      return;
    }
    var i := 0;
    while true
      invariant 0 <= i <= |text|
      invariant forall k: nat, j: nat :: k < i ==> !FoundAt(re, text, k, j)
      decreases |text| - i
    {
      FoundPrefix(re, text, i);
      b := MatchHere(re, text[i..]);
      if b {
        return;
      }
      if i == |text| {
        return false;
      }
      i := i + 1;
    }
  }
}
