/**
 * The whitespace tokenizer that `sscanf(line, "%ms %ms %ms %ms %ms", ...)`
 * applies to a clonetab line, and the single-space joining that the unit
 * file's `"%s %s %s"` lines use.
 */
module Text {

  /** `isspace()` in the C locale: the characters `%ms` skips and stops at. */
  predicate IsSpace(c: char) {
    c == ' ' || c == '\t' || c == '\n' || c == '\U{B}' || c == '\U{C}' || c == '\r'
  }

  predicate NoSpace(w: string) {
    forall i :: 0 <= i < |w| ==> !IsSpace(w[i])
  }

  /** A word as one `%ms` conversion stores it: non-empty, without whitespace. */
  predicate IsWord(w: string) {
    w != [] && NoSpace(w)
  }

  /** Length of the leading run of non-space characters of `s`. */
  function WordLen(s: string): (n: nat)
    ensures n <= |s|
    ensures NoSpace(s[..n])
    ensures n < |s| ==> IsSpace(s[n])
  {
    if s == [] || IsSpace(s[0]) then 0 else 1 + WordLen(s[1..])
  }

  /**
   * The whitespace-separated words of `s`, in order: what successive `%ms`
   * conversions read, each skipping the whitespace before its word.
   */
  function Tokens(s: string): (ws: seq<string>)
    ensures forall k :: 0 <= k < |ws| ==> IsWord(ws[k])
    decreases |s|
  {
    if s == [] then []
    else if IsSpace(s[0]) then Tokens(s[1..])
    else
      var n := WordLen(s);
      [s[..n]] + Tokens(s[n..])
  }

  /** Words separated by single spaces, as a `"%s %s %s"` format writes them. */
  function Join(ws: seq<string>): string {
    if ws == [] then ""
    else if |ws| == 1 then ws[0]
    else ws[0] + " " + Join(ws[1..])
  }

  lemma {:induction false} WordLenOfWord(w: string, rest: string)
    requires NoSpace(w)
    requires rest == [] || IsSpace(rest[0])
    ensures WordLen(w + rest) == |w|
    decreases |w|
  {
    if w != [] {
      assert (w + rest)[1..] == w[1..] + rest;
      WordLenOfWord(w[1..], rest);
    } else {
      assert w + rest == rest;
    }
  }

  /** Reading back words written with `Join` gives the same words. */
  lemma {:induction false} TokensJoin(ws: seq<string>)
    requires forall k :: 0 <= k < |ws| ==> IsWord(ws[k])
    ensures Tokens(Join(ws)) == ws
    decreases |ws|
  {
    if ws == [] {
    } else if |ws| == 1 {
      var w := ws[0];
      WordLenOfWord(w, []);
      assert w + [] == w;
      assert w[|w|..] == [];
      assert w[..|w|] == w;
    } else {
      var w, rest := ws[0], Join(ws[1..]);
      var s := w + " " + rest;
      assert s == w + (" " + rest);
      WordLenOfWord(w, " " + rest);
      assert s[..|w|] == w;
      assert s[|w|..] == " " + rest;
      assert (" " + rest)[1..] == rest;
      TokensJoin(ws[1..]);
      assert Tokens(s) == [w] + Tokens(" " + rest);
    }
  }

  /** Text made only of whitespace, possibly empty. */
  predicate AllSpace(sp: string) {
    forall i :: 0 <= i < |sp| ==> IsSpace(sp[i])
  }

  /**
   * Words laid out with whitespace: `seps[0] + ws[0] + seps[1] + ... +
   * ws[n-1] + seps[n]`.
   */
  function Layout(seps: seq<string>, ws: seq<string>): string
    requires |seps| == |ws| + 1
    decreases |ws|
  {
    if ws == [] then seps[0] else seps[0] + ws[0] + Layout(seps[1..], ws[1..])
  }

  /**
   * Separators for `n` words: whitespace only, and non-empty between two
   * words; the leading and trailing ones may be empty.
   */
  predicate Separators(seps: seq<string>, n: nat) {
    && |seps| == n + 1
    && (forall i :: 0 <= i < |seps| ==> AllSpace(seps[i]))
    && (forall i :: 0 < i < n ==> seps[i] != [])
  }

  lemma {:induction false} TokensSkipSpace(sp: string, rest: string)
    requires AllSpace(sp)
    ensures Tokens(sp + rest) == Tokens(rest)
    decreases |sp|
  {
    if sp != [] {
      assert (sp + rest)[1..] == sp[1..] + rest;
      TokensSkipSpace(sp[1..], rest);
    } else {
      assert sp + rest == rest;
    }
  }

  lemma TokensOfWord(w: string, rest: string)
    requires IsWord(w)
    requires rest == [] || IsSpace(rest[0])
    ensures Tokens(w + rest) == [w] + Tokens(rest)
  {
    WordLenOfWord(w, rest);
    assert (w + rest)[0] == w[0];
    assert (w + rest)[..|w|] == w;
    assert (w + rest)[|w|..] == rest;
  }

  /**
   * Whatever whitespace separates the words, and whatever leads or trails
   * them, the tokenizer reads back exactly those words in order.
   */
  lemma {:induction false} TokensOfLayout(seps: seq<string>, ws: seq<string>)
    requires forall k :: 0 <= k < |ws| ==> IsWord(ws[k])
    requires Separators(seps, |ws|)
    ensures Tokens(Layout(seps, ws)) == ws
    decreases |ws|
  {
    if ws == [] {
      TokensSkipSpace(seps[0], []);
      assert seps[0] + [] == seps[0];
    } else {
      var rest := Layout(seps[1..], ws[1..]);
      assert Separators(seps[1..], |ws| - 1) by {
        forall i | 0 < i < |ws| - 1 ensures seps[1..][i] != [] {
          assert seps[1..][i] == seps[i + 1];
        }
      }
      assert rest == [] || IsSpace(rest[0]) by {
        if |ws| == 1 {
          assert rest == seps[1];
        } else {
          assert seps[1] != [];
          assert rest[0] == seps[1][0];
        }
      }
      TokensOfLayout(seps[1..], ws[1..]);
      assert Layout(seps, ws) == seps[0] + (ws[0] + rest);
      TokensSkipSpace(seps[0], ws[0] + rest);
      TokensOfWord(ws[0], rest);
    }
  }

  /** Text put in front of the first separator comes first in the layout. */
  lemma LayoutPrefix(a: string, more: seq<string>, ws: seq<string>)
    requires |more| == |ws| + 1
    ensures Layout([a + more[0]] + more[1..], ws) == a + Layout(more, ws)
  {
    var seps := [a + more[0]] + more[1..];
    assert seps[1..] == more[1..];
    if ws != [] {
      var tail := ws[0] + Layout(more[1..], ws[1..]);
      assert Layout(seps, ws) == (a + more[0]) + tail;
      assert Layout(more, ws) == more[0] + tail;
    }
  }

  /** Leading whitespace joins the first separator. */
  lemma LayoutMoreSpace(c: char, more: seq<string>, ws: seq<string>)
    requires IsSpace(c) && Separators(more, |ws|)
    ensures var seps := [[c] + more[0]] + more[1..];
      Separators(seps, |ws|) && Layout(seps, ws) == [c] + Layout(more, ws) && seps[0] != []
  {
    var seps := [[c] + more[0]] + more[1..];
    LayoutPrefix([c], more, ws);
    assert AllSpace(seps[0]) by {
      forall j | 0 <= j < |seps[0]| ensures IsSpace(seps[0][j]) {
        if j > 0 {
          assert seps[0][j] == more[0][j - 1];
        }
      }
    }
    forall i | 0 < i < |seps| ensures seps[i] == more[i] { }
  }

  /** A leading word comes after an empty first separator. */
  lemma LayoutMoreWord(w: string, more: seq<string>, ws: seq<string>)
    requires Separators(more, |ws|)
    requires ws != [] ==> more[0] != []
    ensures Separators([""] + more, |ws| + 1)
    ensures Layout([""] + more, [w] + ws) == w + Layout(more, ws)
  {
    var seps := [""] + more;
    assert seps[1..] == more;
    assert ([w] + ws)[1..] == ws;
    forall i | 0 < i < |seps| ensures seps[i] == more[i - 1] { }
  }

  /** Separators that lay out the tokens of `s` as `s` itself. */
  lemma {:induction false} TokenSeparators(s: string) returns (seps: seq<string>)
    ensures Separators(seps, |Tokens(s)|)
    ensures Layout(seps, Tokens(s)) == s
    ensures s != [] && IsSpace(s[0]) ==> seps[0] != []
    decreases |s|
  {
    if s == [] {
      seps := [""];
    } else if IsSpace(s[0]) {
      var more := TokenSeparators(s[1..]);
      LayoutMoreSpace(s[0], more, Tokens(s[1..]));
      seps := [[s[0]] + more[0]] + more[1..];
      assert s == [s[0]] + s[1..];
    } else {
      var n := WordLen(s);
      var w, rest := s[..n], s[n..];
      var more := TokenSeparators(rest);
      assert Tokens(s) == [w] + Tokens(rest);
      LayoutMoreWord(w, more, Tokens(rest));
      seps := [""] + more;
      assert s == w + rest;
    }
  }

  /**
   * The tokens of any text are its maximal runs of non-space characters:
   * the text is those tokens laid out with whitespace separators.
   */
  lemma LayoutOfTokens(s: string)
    ensures exists seps :: Separators(seps, |Tokens(s)|) && Layout(seps, Tokens(s)) == s
  {
    var seps := TokenSeparators(s);
  }
}
