/** The first-person rewrite `s.replace(/\b(?:I|my|mine|me|myself)\b/gi, userName.toLowerCase())`,
    applied to the question before it is embedded and to the assembled prompt.

    `\b` and the word characters are those of a regular expression without the `u` flag:
    `[A-Za-z0-9_]`. A match must start and end at a word boundary and the alternatives are
    letters only, so a match is exactly a maximal run of word characters that spells one of
    the five words, in any mix of ASCII case. The scan is left to right and inserted text
    is never scanned again. */
module Pronouns {
  import opened Text

  predicate IsWordChar(c: char) {
    'A' <= c <= 'Z' || 'a' <= c <= 'z' || '0' <= c <= '9' || c == '_'
  }

  /** The five words, in lower case. */
  const Words: set<string> := {"i", "my", "mine", "me", "myself"}

  /** A run of characters the regular expression replaces (case-insensitively). */
  predicate IsPronoun(w: string) {
    ToLowerAscii(w) in Words
  }

  /** The length of the run of word characters at the front of `s`. */
  function WordLen(s: string): (n: nat)
    ensures n <= |s|
    ensures forall k :: 0 <= k < n ==> IsWordChar(s[k])
    ensures n < |s| ==> !IsWordChar(s[n])
    decreases |s|
  {
    if s == [] || !IsWordChar(s[0]) then 0 else 1 + WordLen(s[1..])
  }

  /** What a whole run of word characters becomes. */
  function Image(w: string, rep: string): string {
    if IsPronoun(w) then rep else w
  }

  /** The global replace with replacement text `rep`. */
  function Substitute(s: string, rep: string): string
    decreases |s|
  {
    if s == [] then ""
    else if IsWordChar(s[0]) then
      var n := WordLen(s);
      Image(s[..n], rep) + Substitute(s[n..], rep)
    else [s[0]] + Substitute(s[1..], rep)
  }

  /** The rewrite as the handlers call it, with the lower-cased user name. */
  function ReplacePronouns(s: string, userName: string): string {
    Substitute(s, ToLowerAscii(userName))
  }

  /** A string of word characters followed by a non-word character (or nothing) is
      read as one run. */
  lemma {:induction false} WordLenOfWord(w: string, b: string)
    requires forall k :: 0 <= k < |w| ==> IsWordChar(w[k])
    requires b == [] || !IsWordChar(b[0])
    ensures WordLen(w + b) == |w|
    decreases |w|
  {
    if w != [] {
      assert (w + b)[1..] == w[1..] + b;
      WordLenOfWord(w[1..], b);
    }
  }

  /** The rewrite works piece by piece across any point that is a word boundary. */
  lemma {:induction false} SubstituteAppend(a: string, b: string, rep: string)
    requires a == [] || b == [] || !IsWordChar(a[|a| - 1]) || !IsWordChar(b[0])
    ensures Substitute(a + b, rep) == Substitute(a, rep) + Substitute(b, rep)
    decreases |a|, 2
  {
    if a == [] {
      assert a + b == b;
    } else if IsWordChar(a[0]) {
      AppendAfterWord(a, b, rep);
    } else {
      AppendAfterChar(a, b, rep);
    }
  }

  lemma {:induction false} AppendAfterWord(a: string, b: string, rep: string)
    requires a != [] && IsWordChar(a[0])
    requires b == [] || !IsWordChar(a[|a| - 1]) || !IsWordChar(b[0])
    ensures Substitute(a + b, rep) == Substitute(a, rep) + Substitute(b, rep)
    decreases |a|, 1
  {
    if WordLen(a) < |a| {
      AppendAfterLongWord(a, b, rep);
    } else {
      AppendAfterWholeWord(a, b, rep);
    }
  }

  /** `a` is one run followed by more text. */
  lemma {:induction false} AppendAfterLongWord(a: string, b: string, rep: string)
    requires a != [] && IsWordChar(a[0]) && WordLen(a) < |a|
    requires b == [] || !IsWordChar(a[|a| - 1]) || !IsWordChar(b[0])
    ensures Substitute(a + b, rep) == Substitute(a, rep) + Substitute(b, rep)
    decreases |a|, 0
  {
    var n := WordLen(a);
    FirstWordOfAppend(a, b, rep);
    UnfoldWord(a, rep);
    var r := a[n..];
    assert |r| == |a| - n > 0 && r[|r| - 1] == a[|a| - 1];
    SubstituteAppend(r, b, rep);
    var I, P, Q := Image(a[..n], rep), Substitute(r, rep), Substitute(b, rep);
    assert Substitute(a + b, rep) == I + (P + Q);
    ConcatAssoc(I, P, Q);
  }

  /** `a` is a single run. */
  lemma AppendAfterWholeWord(a: string, b: string, rep: string)
    requires a != [] && IsWordChar(a[0]) && WordLen(a) == |a|
    requires b == [] || !IsWordChar(b[0])
    ensures Substitute(a + b, rep) == Substitute(a, rep) + Substitute(b, rep)
  {
    FirstWordOfAppend(a, b, rep);
    UnfoldWord(a, rep);
    var I := Image(a[..|a|], rep);
    assert a[|a|..] == [] && a[|a|..] + b == b;
    assert Substitute(a[|a|..], rep) == [];
    assert I + [] == I;
  }

  /** The first run of `a + b` is the first run of `a` when `a` ends at a word boundary. */
  lemma FirstWordOfAppend(a: string, b: string, rep: string)
    requires a != [] && IsWordChar(a[0])
    requires b == [] || !IsWordChar(a[|a| - 1]) || !IsWordChar(b[0])
    ensures Substitute(a + b, rep) == Image(a[..WordLen(a)], rep) + Substitute(a[WordLen(a)..] + b, rep)
  {
    var n := WordLen(a);
    var w, c := a[..n], a[n..] + b;
    assert a + b == w + c;
    if n < |a| {
      assert a[n..][0] == a[n];
    }
    WordLenOfWord(w, c);
    assert (a + b)[..n] == w && (a + b)[n..] == c;
    UnfoldWord(a + b, rep);
  }

  lemma ConcatAssoc(x: string, y: string, z: string)
    ensures x + (y + z) == (x + y) + z
  {
  }

  lemma UnfoldWord(s: string, rep: string)
    requires s != [] && IsWordChar(s[0])
    ensures Substitute(s, rep) == Image(s[..WordLen(s)], rep) + Substitute(s[WordLen(s)..], rep)
  {
  }

  lemma {:induction false} AppendAfterChar(a: string, b: string, rep: string)
    requires a != [] && !IsWordChar(a[0])
    requires b == [] || !IsWordChar(a[|a| - 1]) || !IsWordChar(b[0])
    ensures Substitute(a + b, rep) == Substitute(a, rep) + Substitute(b, rep)
    decreases |a|, 0
  {
    assert (a + b)[0] == a[0];
    assert (a + b)[1..] == a[1..] + b;
    if |a| > 1 { assert a[1..][|a| - 2] == a[|a| - 1]; }
    SubstituteAppend(a[1..], b, rep);
  }

  /** A whole run of word characters becomes `rep` when it is one of the five words and
      stays as it is otherwise. */
  lemma SubstituteWord(w: string, rep: string)
    requires w != []
    requires forall k :: 0 <= k < |w| ==> IsWordChar(w[k])
    ensures Substitute(w, rep) == Image(w, rep)
  {
    WordLenOfWord(w, []);
    assert w + [] == w;
    assert w[|w|..] == [];
  }

  /** The five words are made of letters only. */
  lemma PronounIsWord(w: string)
    requires IsPronoun(w)
    ensures w != []
    ensures forall k :: 0 <= k < |w| ==> IsWordChar(w[k])
  {
    var l := ToLowerAscii(w);
    forall k | 0 <= k < |w| ensures IsWordChar(w[k]) {
      assert 'a' <= l[k] <= 'z';
    }
  }

  /** Every occurrence of one of the five words between word boundaries is replaced by
      `rep`, and the text on either side is rewritten independently of it. */
  lemma ReplacesWholeWord(a: string, w: string, b: string, rep: string)
    requires IsPronoun(w)
    requires a == [] || !IsWordChar(a[|a| - 1])
    requires b == [] || !IsWordChar(b[0])
    ensures Substitute(a + w + b, rep) == Substitute(a, rep) + rep + Substitute(b, rep)
  {
    PronounIsWord(w);
    SubstituteAppend(a, w, rep);
    SubstituteAppend(a + w, b, rep);
    SubstituteWord(w, rep);
  }

  /** A run of word characters that is not one of the five words is kept, so is every
      non-word character. */
  lemma KeepsOtherWords(a: string, w: string, b: string, rep: string)
    requires w != [] && !IsPronoun(w)
    requires forall k :: 0 <= k < |w| ==> IsWordChar(w[k])
    requires a == [] || !IsWordChar(a[|a| - 1])
    requires b == [] || !IsWordChar(b[0])
    ensures Substitute(a + w + b, rep) == Substitute(a, rep) + w + Substitute(b, rep)
  {
    SubstituteAppend(a, w, rep);
    SubstituteAppend(a + w, b, rep);
    SubstituteWord(w, rep);
  }

  /** A word of the five at index `p` of length `n`, bounded by non-word characters
      or the ends of the string: a match of the regular expression. */
  predicate MatchAt(s: string, p: nat, n: nat) {
    p + n <= |s| && IsPronoun(s[p..p + n])
    && (p == 0 || !IsWordChar(s[p - 1]))
    && (p + n == |s| || !IsWordChar(s[p + n]))
  }

  /** Where the regular expression finds no match, the rewrite changes nothing. */
  lemma {:induction false} NoMatchNoChange(s: string, rep: string)
    requires forall p: nat, n: nat :: !MatchAt(s, p, n)
    ensures Substitute(s, rep) == s
    decreases |s|
  {
    if s != [] {
      if IsWordChar(s[0]) {
        var n := WordLen(s);
        assert !MatchAt(s, 0, n);
        var t := s[n..];
        forall p: nat, m: nat ensures !MatchAt(t, p, m) {
          if p == 0 {
            if m <= |t| && IsPronoun(t[..m]) {
              PronounIsWord(t[..m]);
              assert false;
            }
          } else {
            NoMatchInSuffix(s, n, p, m);
          }
        }
        NoMatchNoChange(t, rep);
        assert s[..n] + s[n..] == s;
      } else {
        var t := s[1..];
        forall p: nat, m: nat ensures !MatchAt(t, p, m) {
          NoMatchInSuffix(s, 1, p, m);
        }
        NoMatchNoChange(t, rep);
      }
    }
  }

  /** A match in a suffix that starts after a word boundary is a match in the whole string. */
  lemma NoMatchInSuffix(s: string, k: nat, p: nat, m: nat)
    requires 0 < k <= |s|
    requires p > 0 || !IsWordChar(s[k - 1])
    requires !MatchAt(s, k + p, m)
    ensures !MatchAt(s[k..], p, m)
  {
    var t := s[k..];
    if p + m <= |t| {
      assert s[k + p..k + p + m] == t[p..p + m];
      if p > 0 {
        assert s[k + p - 1] == t[p - 1];
      }
      if p + m < |t| {
        assert s[k + p + m] == t[p + m];
      }
    }
  }

  /** A run of word characters. */
  predicate IsWord(w: string) {
    w != [] && forall k :: 0 <= k < |w| ==> IsWordChar(w[k])
  }

  /** What each word becomes. */
  function Images(ws: seq<string>, rep: string): (r: seq<string>)
    ensures |r| == |ws|
    decreases |ws|
  {
    if ws == [] then [] else [Image(ws[0], rep)] + Images(ws[1..], rep)
  }

  /** A word followed by a boundary is rewritten on its own. */
  lemma WordThenRest(w: string, t: string, rep: string)
    requires IsWord(w)
    requires t == [] || !IsWordChar(t[0])
    ensures Substitute(w + t, rep) == Image(w, rep) + Substitute(t, rep)
  {
    SubstituteAppend(w, t, rep);
    SubstituteWord(w, rep);
  }

  /** A space is kept. */
  lemma SpaceThenRest(t: string, rep: string)
    ensures Substitute(" " + t, rep) == " " + Substitute(t, rep)
  {
    assert (" " + t)[1..] == t;
  }

  /** The rewrite of space-separated words replaces exactly the words that are one of the
      five and keeps the others. */
  lemma {:induction false} SubstituteSentence(ws: seq<string>, rep: string)
    requires forall k :: 0 <= k < |ws| ==> IsWord(ws[k])
    ensures Substitute(Join(ws, ' '), rep) == Join(Images(ws, rep), ' ')
    decreases |ws|
  {
    var im := Images(ws, rep);
    if |ws| == 1 {
      SubstituteWord(ws[0], rep);
    } else if |ws| >= 2 {
      var t := Join(ws[1..], ' ');
      SubstituteSentence(ws[1..], rep);
      ConcatAssoc(ws[0], " ", t);
      WordThenRest(ws[0], " " + t, rep);
      SpaceThenRest(t, rep);
      assert im[0] == Image(ws[0], rep) && im[1..] == Images(ws[1..], rep);
      ConcatAssoc(Image(ws[0], rep), " ", Join(im[1..], ' '));
    }
  }

  lemma ExampleWords()
    ensures IsPronoun("I") && IsPronoun("my")
    ensures !IsPronoun("need") && !IsPronoun("help") && !IsPronoun("with") && !IsPronoun("confidence")
    ensures ToLowerAscii("Sam") == "sam"
  {
    assert ToLowerAscii("I") == "i";
    assert ToLowerAscii("my") == "my";
    assert ToLowerAscii("need") == "need";
    assert ToLowerAscii("help") == "help";
    assert ToLowerAscii("with") == "with";
    assert ToLowerAscii("confidence") == "confidence";
    assert ToLowerAscii("Sam") == "sam";
  }

  /** A question rewritten for the user "Sam": "I need help with my confidence",
      word by word. */
  lemma Example()
    ensures ReplacePronouns(Join(["I", "need", "help", "with", "my", "confidence"], ' '), "Sam")
         == Join(["sam", "need", "help", "with", "sam", "confidence"], ' ')
    ensures Join(["I", "need", "help", "with", "my", "confidence"], ' ') == "I need help with my confidence"
    ensures Join(["sam", "need", "help", "with", "sam", "confidence"], ' ') == "sam need help with sam confidence"
  {
    ExampleWords();
    var ws := ["I", "need", "help", "with", "my", "confidence"];
    SubstituteSentence(ws, "sam");
    ExampleImages();
    ExampleQuestion();
    ExampleAnswer();
  }

  lemma ExampleQuestion()
    ensures Join(["I", "need", "help", "with", "my", "confidence"], ' ') == "I need help with my confidence"
  {
    var ws := ["I", "need", "help", "with", "my", "confidence"];
    assert ws[1..][1..][1..][1..][1..] == ["confidence"];
  }

  lemma ExampleAnswer()
    ensures Join(["sam", "need", "help", "with", "sam", "confidence"], ' ') == "sam need help with sam confidence"
  {
    var ws := ["sam", "need", "help", "with", "sam", "confidence"];
    assert ws[1..][1..][1..][1..][1..] == ["confidence"];
  }

  lemma ExampleImages()
    ensures Images(["I", "need", "help", "with", "my", "confidence"], "sam")
         == ["sam", "need", "help", "with", "sam", "confidence"]
  {
    ExampleWords();
    var ws := ["I", "need", "help", "with", "my", "confidence"];
    assert ws[1..][1..][1..][1..][1..][1..] == [];
  }
}
