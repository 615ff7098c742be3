/** The few string operations of Python the model needs. */
module Text {

  /** `str.isspace` for one character. */
  predicate IsSpace(c: char) {
    var n := c as int;
    || 9 <= n <= 13 || 28 <= n <= 32 || n == 0x85 || n == 0xA0 || n == 0x1680
    || 0x2000 <= n <= 0x200A || n == 0x2028 || n == 0x2029 || n == 0x202F || n == 0x205F || n == 0x3000
  }

  function StripLeft(s: string): string {
    if s != "" && IsSpace(s[0]) then StripLeft(s[1..]) else s
  }

  function StripRight(s: string): string {
    if s != "" && IsSpace(s[|s| - 1]) then StripRight(s[..|s| - 1]) else s
  }

  /** `str.strip`. */
  function Strip(s: string): string {
    StripRight(StripLeft(s))
  }

  /** The number of words `str.split` finds; `inWord` says whether the text continues a word. */
  function Words(s: string, inWord: bool): nat {
    if s == "" then 0
    else if IsSpace(s[0]) then Words(s[1..], false)
    else (if inWord then 0 else 1) + Words(s[1..], true)
  }

  // ---------------------------------------------------------------- the order of strings

  /** By code points. */
  predicate Before(a: string, b: string) {
    b != "" && (a == "" || a[0] < b[0] || (a[0] == b[0] && Before(a[1..], b[1..])))
  }

  lemma {:induction false} BeforeTotal(a: string, b: string)
    ensures Before(a, b) || Before(b, a) || a == b
  {
    if a != "" && b != "" {
      BeforeTotal(a[1..], b[1..]);
      assert a == [a[0]] + a[1..] && b == [b[0]] + b[1..];
    }
  }

  lemma {:induction false} BeforeTransitive(a: string, b: string, c: string)
    requires Before(a, b) && Before(b, c)
    ensures Before(a, c)
  {
    if a != "" && a[0] == b[0] == c[0] {
      BeforeTransitive(a[1..], b[1..], c[1..]);
    }
  }

  lemma {:induction false} BeforeIrreflexive(a: string)
    ensures !Before(a, a)
  {
    if a != "" { BeforeIrreflexive(a[1..]); }
  }

  /** They agree up to the place where the one ends or has the smaller character. */
  lemma {:induction false} BeforeInWords(a: string, b: string)
    ensures Before(a, b) <==>
      exists k :: 0 <= k <= |a| && k < |b| && a[..k] == b[..k] && (k == |a| || a[k] < b[k])
  {
    if a != "" && b != "" && a[0] == b[0] {
      BeforeInWords(a[1..], b[1..]);
      if Before(a, b) {
        var k :| 0 <= k <= |a[1..]| && k < |b[1..]| && a[1..][..k] == b[1..][..k]
          && (k == |a[1..]| || a[1..][k] < b[1..][k]);
        assert a[..k + 1] == [a[0]] + a[1..][..k] && b[..k + 1] == [b[0]] + b[1..][..k];
      } else if k :| 0 <= k <= |a| && k < |b| && a[..k] == b[..k] && (k == |a| || a[k] < b[k]) {
        assert k > 0 && a[1..][..k - 1] == a[..k][1..] && b[1..][..k - 1] == b[..k][1..];
      }
    } else if b != "" && (a == "" || a[0] < b[0]) {
      assert a[..0] == b[..0];
    }
  }

  // ---------------------------------------------------------------- stripping

  ghost predicate Blank(s: string) {
    forall i :: 0 <= i < |s| ==> IsSpace(s[i])
  }

  /** Not empty, and no space at either end. */
  predicate Trimmed(s: string) {
    s != "" && !IsSpace(s[0]) && !IsSpace(s[|s| - 1])
  }

  lemma {:induction false} StripLeftOf(pre: string, s: string)
    requires Blank(pre) && (s == "" || !IsSpace(s[0]))
    ensures StripLeft(pre + s) == s
  {
    if pre == "" {
      assert pre + s == s;
    } else {
      assert (pre + s)[1..] == pre[1..] + s;
      StripLeftOf(pre[1..], s);
    }
  }

  lemma {:induction false} StripRightOf(s: string, post: string)
    requires Blank(post) && (s == "" || !IsSpace(s[|s| - 1]))
    ensures StripRight(s + post) == s
  {
    if post == "" {
      assert s + post == s;
    } else {
      var n := |post| - 1;
      assert (s + post)[..|s + post| - 1] == s + post[..n];
      StripRightOf(s, post[..n]);
    }
  }

  /** What is left after stripping is what stands between two stretches of spaces. */
  lemma StripFinds(pre: string, s: string, post: string)
    requires Blank(pre) && Blank(post) && Trimmed(s)
    ensures Strip(pre + s + post) == s
  {
    assert pre + s + post == pre + (s + post);
    StripLeftOf(pre, s + post);
    StripRightOf(s, post);
  }

  lemma {:induction false} StripLeftCuts(s: string) returns (pre: string)
    ensures s == pre + StripLeft(s) && Blank(pre)
    ensures StripLeft(s) == "" || !IsSpace(StripLeft(s)[0])
  {
    if s != "" && IsSpace(s[0]) {
      var rest := StripLeftCuts(s[1..]);
      pre := [s[0]] + rest;
    } else {
      pre := "";
    }
  }

  lemma {:induction false} StripRightCuts(s: string) returns (post: string)
    ensures s == StripRight(s) + post && Blank(post)
    ensures StripRight(s) == "" || !IsSpace(StripRight(s)[|StripRight(s)| - 1])
  {
    if s != "" && IsSpace(s[|s| - 1]) {
      var rest := StripRightCuts(s[..|s| - 1]);
      post := rest + [s[|s| - 1]];
    } else {
      post := "";
    }
  }

  /** Stripping cuts off spaces and nothing else. */
  lemma StripCuts(s: string) returns (pre: string, post: string)
    ensures s == pre + Strip(s) + post && Blank(pre) && Blank(post) && |pre| == |s| - |StripLeft(s)|
    ensures Strip(s) == "" || Trimmed(Strip(s))
  {
    pre := StripLeftCuts(s);
    post := StripRightCuts(StripLeft(s));
    if Strip(s) != "" {
      assert StripLeft(s)[0] == Strip(s)[0];
    }
  }

  lemma StripFixes(s: string)
    requires s == "" || Trimmed(s)
    ensures Strip(s) == s
  {
    if s != "" {
      StripFinds("", s, "");
      assert "" + s + "" == s;
    }
  }

  lemma StripTwice(s: string)
    ensures Strip(Strip(s)) == Strip(s) && (Strip(s) == "" || Trimmed(Strip(s)))
  {
    var _, _ := StripCuts(s);
    StripFixes(Strip(s));
  }

  lemma BlankInside(pre: string, s: string, post: string)
    requires Blank(pre + s + post)
    ensures Blank(s)
  {
    forall i | 0 <= i < |s| ensures IsSpace(s[i]) {
      assert (pre + s + post)[|pre| + i] == s[i];
    }
  }

  lemma BlankStripsToNothing(s: string)
    requires Blank(s)
    ensures Strip(s) == ""
  {
    var pre, post := StripCuts(s);
    BlankInside(pre, Strip(s), post);
  }

  /** Spaces around a text do not matter to stripping. */
  lemma StripIgnores(pre: string, s: string, post: string)
    requires Blank(pre) && Blank(post)
    ensures Strip(pre + s + post) == Strip(s)
  {
    var a, b := StripCuts(s);
    if Strip(s) == "" {
      assert s == a + b;
      BlankStripsToNothing(pre + s + post);
    } else {
      StripFinds(pre + a, Strip(s), b + post);
      assert pre + s + post == pre + a + Strip(s) + (b + post);
    }
  }

  lemma NotBlank(s: string, k: nat)
    requires k < |s| && !IsSpace(s[k])
    ensures Strip(s) != ""
  {
    var pre, post := StripCuts(s);
    assert Strip(s) == "" ==> s == pre + post;
  }

  // ---------------------------------------------------------------- counting words

  /** Letters without a space between them. */
  ghost predicate IsWord(s: string) {
    s != "" && forall i :: 0 <= i < |s| ==> !IsSpace(s[i])
  }

  lemma {:induction false} RestOfAWord(s: string, rest: string)
    requires forall i :: 0 <= i < |s| ==> !IsSpace(s[i])
    ensures Words(s + rest, true) == Words(rest, true)
  {
    if s == "" {
      assert s + rest == rest;
    } else {
      assert (s + rest)[1..] == s[1..] + rest && (s + rest)[0] == s[0];
      RestOfAWord(s[1..], rest);
    }
  }

  lemma {:induction false} SpacesBetween(s: string, rest: string, inWord: bool)
    requires Blank(s)
    ensures Words(s + rest, inWord) == Words(rest, if s == "" then inWord else false)
  {
    if s == "" {
      assert s + rest == rest;
    } else {
      assert (s + rest)[1..] == s[1..] + rest && (s + rest)[0] == s[0];
      SpacesBetween(s[1..], rest, false);
    }
  }

  /** The words with spaces before, between and behind them. */
  function Spaced(words: seq<string>, gaps: seq<string>): string
    requires |gaps| == |words| + 1
  {
    if words == [] then gaps[0] else gaps[0] + words[0] + Spaced(words[1..], gaps[1..])
  }

  /** Words are counted, whatever spaces stand around them. */
  lemma {:induction false} WordsAreCounted(words: seq<string>, gaps: seq<string>)
    requires |gaps| == |words| + 1
    requires forall i :: 0 <= i < |words| ==> IsWord(words[i])
    requires forall i :: 0 <= i < |gaps| ==> Blank(gaps[i]) && (0 < i < |words| ==> gaps[i] != "")
    ensures Words(Spaced(words, gaps), false) == |words|
  {
    if words == [] {
      SpacesBetween(gaps[0], "", false);
      assert gaps[0] + "" == gaps[0];
    } else {
      var rest := Spaced(words[1..], gaps[1..]);
      WordsAreCounted(words[1..], gaps[1..]);
      SpacesBetween(gaps[0], words[0] + rest, false);
      assert gaps[0] + (words[0] + rest) == gaps[0] + words[0] + rest;
      assert (words[0] + rest)[0] == words[0][0] && (words[0] + rest)[1..] == words[0][1..] + rest;
      RestOfAWord(words[0][1..], rest);
      AfterAWord(words[1..], gaps[1..]);
    }
  }

  /** Behind a word comes a space or nothing. */
  lemma AfterAWord(words: seq<string>, gaps: seq<string>)
    requires |gaps| == |words| + 1 && Blank(gaps[0]) && (words != [] ==> gaps[0] != "")
    ensures Words(Spaced(words, gaps), true) == Words(Spaced(words, gaps), false)
  {
    var s := Spaced(words, gaps);
    assert s != "" ==> s[0] == gaps[0][0];
  }
}
