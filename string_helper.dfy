/**
 * AR.Generator/StringHelper.cs: the two string helpers of the code generator. Characters are
 * ASCII-classified: `[A-Za-z0-9]` as in the regular expression, and the whitespace set of the
 * ASCII range.
 */
module StringHelper {

  predicate IsAlphanumeric(c: char)
  {
    ('A' <= c <= 'Z') || ('a' <= c <= 'z') || ('0' <= c <= '9')
  }

  /** `ToUpper` on the characters it is applied to: a lower-case letter becomes upper case. */
  function Upper(c: char): (u: char)
    ensures IsAlphanumeric(c) ==> IsAlphanumeric(u)
  {
    if 'a' <= c <= 'z' then (c as int - 32) as char else c
  }

  /* ---- ToCamelCase ---- */

  /** `Regex.Replace(s, "[^A-Za-z0-9]", "_")`. */
  function Replaced(s: string): (t: string)
    ensures |t| == |s|
    ensures forall i :: 0 <= i < |s| ==> t[i] == (if IsAlphanumeric(s[i]) then s[i] else '_')
  {
    if s == [] then [] else [if IsAlphanumeric(s[0]) then s[0] else '_'] + Replaced(s[1..])
  }

  /** The number of characters before the first `'_'`. */
  function TokenLength(t: string): (n: nat)
    ensures n <= |t|
    ensures forall i :: 0 <= i < n ==> t[i] != '_'
    ensures n < |t| ==> t[n] == '_'
  {
    if t == [] || t[0] == '_' then 0 else 1 + TokenLength(t[1..])
  }

  /** `Split(new[] { '_' }, RemoveEmptyEntries)`: the maximal runs without `'_'`, in order. */
  function Tokens(t: string): (ts: seq<string>)
    ensures forall k :: 0 <= k < |ts| ==> ts[k] != [] && forall i :: 0 <= i < |ts[k]| ==> ts[k][i] != '_'
    decreases |t|
  {
    if t == [] then []
    else if t[0] == '_' then Tokens(t[1..])
    else var n := TokenLength(t); [t[..n]] + Tokens(t[n..])
  }

  /** A token with its first character upper-cased and the rest kept. */
  function Capitalized(token: string): string
    requires token != []
  {
    [Upper(token[0])] + token[1..]
  }

  /** The capitalized tokens, concatenated. */
  function CapitalizedAll(ts: seq<string>): string
    requires forall k :: 0 <= k < |ts| ==> ts[k] != []
  {
    if ts == [] then [] else Capitalized(ts[0]) + CapitalizedAll(ts[1..])
  }

  /** What `ToCamelCase` returns. */
  function Camel(s: string): string
  {
    CapitalizedAll(Tokens(Replaced(s)))
  }

  lemma {:induction false} CapitalizedAllAppend(ts: seq<string>, t: string)
    requires forall k :: 0 <= k < |ts| ==> ts[k] != []
    requires t != []
    ensures CapitalizedAll(ts + [t]) == CapitalizedAll(ts) + Capitalized(t)
  {
    if ts != [] {
      assert (ts + [t])[1..] == ts[1..] + [t];
      CapitalizedAllAppend(ts[1..], t);
    }
  }

  /** `ToCamelCase`: the tokens appended one by one to a `StringBuilder`. */
  method ToCamelCase(s: string) returns (r: string)
    ensures r == Camel(s)
  {
    var tokens := Tokens(Replaced(s));
    var builder := "";
    for i := 0 to |tokens|
      invariant builder == CapitalizedAll(tokens[..i])
    {
      var token := tokens[i];
      ghost var before := builder;
      builder := builder + [Upper(token[0])];
      if |token| > 1 {
        builder := builder + token[1..];
      }
      assert builder == before + Capitalized(token);
      assert tokens[..i + 1] == tokens[..i] + [token];
      CapitalizedAllAppend(tokens[..i], token);
    }
    assert tokens[..|tokens|] == tokens;
    r := builder;
  }

  /** The alphanumeric characters of `s`, in order. */
  function Alphanumerics(s: string): (a: string)
    ensures forall i :: 0 <= i < |a| ==> IsAlphanumeric(a[i])
  {
    if s == [] then [] else (if IsAlphanumeric(s[0]) then [s[0]] else []) + Alphanumerics(s[1..])
  }

  /** The characters of `t` other than `'_'`, in order. */
  function WithoutUnderscores(t: string): string
  {
    if t == [] then [] else (if t[0] == '_' then [] else [t[0]]) + WithoutUnderscores(t[1..])
  }

  /** The tokens laid end to end. */
  function Flatten(ts: seq<string>): string
  {
    if ts == [] then [] else ts[0] + Flatten(ts[1..])
  }

  /** `r` is `a` with some characters upper-cased. */
  predicate UpToUpper(r: string, a: string)
  {
    |r| == |a| && forall i :: 0 <= i < |r| ==> r[i] == a[i] || r[i] == Upper(a[i])
  }

  lemma {:induction false} UnderscoresOfReplaced(s: string)
    ensures WithoutUnderscores(Replaced(s)) == Alphanumerics(s)
  {
    if s != [] {
      assert Replaced(s)[1..] == Replaced(s[1..]);
      UnderscoresOfReplaced(s[1..]);
    }
  }

  lemma {:induction false} TokenPrefix(t: string, n: nat)
    requires n <= TokenLength(t)
    ensures WithoutUnderscores(t) == t[..n] + WithoutUnderscores(t[n..])
    decreases n
  {
    if n > 0 {
      assert t[1..][..n - 1] == t[1..n];
      assert t[1..][n - 1..] == t[n..];
      TokenPrefix(t[1..], n - 1);
    }
  }

  /** Splitting keeps every character but the separators. */
  lemma {:induction false} FlattenTokens(t: string)
    ensures Flatten(Tokens(t)) == WithoutUnderscores(t)
    decreases |t|
  {
    if t != [] {
      if t[0] == '_' {
        FlattenTokens(t[1..]);
      } else {
        var n := TokenLength(t);
        TokenPrefix(t, n);
        FlattenTokens(t[n..]);
        assert Tokens(t)[1..] == Tokens(t[n..]);
      }
    }
  }

  lemma UpToUpperAppend(r1: string, a1: string, r2: string, a2: string)
    requires UpToUpper(r1, a1) && UpToUpper(r2, a2)
    ensures UpToUpper(r1 + r2, a1 + a2)
  {
    forall i | 0 <= i < |r1 + r2|
      ensures (r1 + r2)[i] == (a1 + a2)[i] || (r1 + r2)[i] == Upper((a1 + a2)[i])
    {
      if i >= |r1| {
        assert (r1 + r2)[i] == r2[i - |r1|] && (a1 + a2)[i] == a2[i - |a1|];
      }
    }
  }

  lemma {:induction false} CapitalizedAllUpToUpper(ts: seq<string>)
    requires forall k :: 0 <= k < |ts| ==> ts[k] != []
    ensures UpToUpper(CapitalizedAll(ts), Flatten(ts))
  {
    if ts != [] {
      assert UpToUpper(Capitalized(ts[0]), ts[0]) by {
        assert Capitalized(ts[0])[1..] == ts[0][1..];
      }
      CapitalizedAllUpToUpper(ts[1..]);
      UpToUpperAppend(Capitalized(ts[0]), ts[0], CapitalizedAll(ts[1..]), Flatten(ts[1..]));
    }
  }

  /**
   * The output is the input's alphanumerics in order, some of them upper-cased: so it holds no
   * separator, and its length is the number of alphanumerics in the input.
   */
  lemma CamelContents(s: string)
    ensures UpToUpper(Camel(s), Alphanumerics(s))
    ensures |Camel(s)| == |Alphanumerics(s)|
    ensures forall i :: 0 <= i < |Camel(s)| ==> IsAlphanumeric(Camel(s)[i])
  {
    CapitalizedAllUpToUpper(Tokens(Replaced(s)));
    FlattenTokens(Replaced(s));
    UnderscoresOfReplaced(s);
  }

  /** An input without alphanumerics, the empty one included, gives "". */
  lemma CamelOfSeparators(s: string)
    requires forall i :: 0 <= i < |s| ==> !IsAlphanumeric(s[i])
    ensures Camel(s) == ""
  {
    CamelContents(s);
    assert Alphanumerics(s) == [] by {
      if Alphanumerics(s) != [] {
        AlphanumericsFrom(s, 0);
      }
    }
  }

  /** Every character of `Alphanumerics(s)` is a character of `s`. */
  lemma {:induction false} AlphanumericsFrom(s: string, j: nat)
    requires j < |Alphanumerics(s)|
    ensures exists i :: 0 <= i < |s| && s[i] == Alphanumerics(s)[j]
  {
    if IsAlphanumeric(s[0]) && j == 0 {
      assert s[0] == Alphanumerics(s)[0];
    } else {
      var j' := if IsAlphanumeric(s[0]) then j - 1 else j;
      assert Alphanumerics(s)[j] == Alphanumerics(s[1..])[j'];
      AlphanumericsFrom(s[1..], j');
      var i :| 0 <= i < |s[1..]| && s[1..][i] == Alphanumerics(s[1..])[j'];
      assert s[i + 1] == Alphanumerics(s)[j];
    }
  }

  /** A string of alphanumerics is one token. */
  lemma {:induction false} OneToken(t: string)
    requires t != [] && forall i :: 0 <= i < |t| ==> IsAlphanumeric(t[i])
    ensures Replaced(t) == t && Tokens(t) == [t]
  {
    var n := TokenLength(t);
    assert n == |t|;
    assert t[..n] == t && t[n..] == [];
  }

  /** `ToCamelCase` applied twice is applied once. */
  lemma CamelIdempotent(s: string)
    ensures Camel(Camel(s)) == Camel(s)
  {
    var r := Camel(s);
    CamelContents(s);
    if r != [] {
      OneToken(r);
      var tokens := Tokens(Replaced(s));
      assert tokens != [];
      assert r[0] == Upper(tokens[0][0]);
      assert Upper(r[0]) == r[0];
      assert Capitalized(r) == r;
      assert Camel(r) == Capitalized(r) + CapitalizedAll([r][1..]);
    }
  }

  /* ---- CleanUpXml ---- */

  /** The whitespace characters of the ASCII range, which `Trim` and `\s` both match. */
  predicate IsWhiteSpace(c: char)
  {
    c == ' ' || c == '\t' || c == '\n' || c == '\r' || c == '\U{B}' || c == '\U{C}'
  }

  /** `Replace("\\n", " ")`: each backslash-n pair, scanned left to right, becomes a space. */
  function NewlineMarkersReplaced(s: string): string
  {
    if |s| >= 2 && s[0] == '\\' && s[1] == 'n' then " " + NewlineMarkersReplaced(s[2..])
    else if s == [] then []
    else [s[0]] + NewlineMarkersReplaced(s[1..])
  }

  function TrimStart(s: string): (r: string)
    ensures r == [] || !IsWhiteSpace(r[0])
    ensures r == [] ==> forall i :: 0 <= i < |s| ==> IsWhiteSpace(s[i])
    ensures |r| <= |s| && r == s[|s| - |r|..]
  {
    if s != [] && IsWhiteSpace(s[0]) then TrimStart(s[1..]) else s
  }

  function TrimEnd(s: string): (r: string)
    ensures r == [] || !IsWhiteSpace(r[|r| - 1])
    ensures |r| <= |s| && r == s[..|r|]
  {
    if s != [] && IsWhiteSpace(s[|s| - 1]) then TrimEnd(s[..|s| - 1]) else s
  }

  /** `Trim`. */
  function Trim(s: string): string
  {
    TrimStart(TrimEnd(s))
  }

  /** `Regex.Replace(s, @"\s+", " ")`: each maximal whitespace run becomes one space. */
  function Collapsed(s: string): string
    decreases |s|
  {
    if s == [] then []
    else if IsWhiteSpace(s[0]) then " " + Collapsed(TrimStart(s))
    else [s[0]] + Collapsed(s[1..])
  }

  /** `CleanUpXml`. */
  function CleanUpXml(s: string): string
  {
    Collapsed(Trim(NewlineMarkersReplaced(s)))
  }

  /** No whitespace at either end, and never two whitespace characters side by side. */
  predicate Clean(r: string)
  {
    && (r == [] || (!IsWhiteSpace(r[0]) && !IsWhiteSpace(r[|r| - 1])))
    && forall i :: 0 <= i < |r| - 1 ==> !(IsWhiteSpace(r[i]) && IsWhiteSpace(r[i + 1]))
  }

  /** The non-whitespace characters, in order. */
  function Visible(s: string): string
  {
    if s == [] then [] else (if IsWhiteSpace(s[0]) then [] else [s[0]]) + Visible(s[1..])
  }

  lemma {:induction false} TrimStartVisible(s: string)
    ensures Visible(TrimStart(s)) == Visible(s)
  {
    if s != [] && IsWhiteSpace(s[0]) {
      TrimStartVisible(s[1..]);
    }
  }

  /** Collapsing never lengthens, and keeps a visible last character; a leading run becomes a space. */
  lemma {:induction false} CollapsedEnds(s: string)
    ensures |Collapsed(s)| <= |s|
    ensures s != [] ==> Collapsed(s) != [] && Collapsed(s)[0] == (if IsWhiteSpace(s[0]) then ' ' else s[0])
    ensures s != [] && !IsWhiteSpace(s[|s| - 1]) ==> Collapsed(s)[|Collapsed(s)| - 1] == s[|s| - 1]
  {
    CollapsedLength(s);
    CollapsedLast(s);
  }

  lemma {:induction false} CollapsedLength(s: string)
    ensures |Collapsed(s)| <= |s|
    decreases |s|
  {
    if s != [] {
      if IsWhiteSpace(s[0]) {
        var rest := TrimStart(s);
        CollapsedLength(rest);
        assert Collapsed(s) == " " + Collapsed(rest);
        assert |rest| < |s|;
      } else {
        CollapsedLength(s[1..]);
        assert Collapsed(s) == [s[0]] + Collapsed(s[1..]);
      }
    }
  }

  lemma {:induction false} CollapsedLast(s: string)
    ensures s != [] && !IsWhiteSpace(s[|s| - 1]) ==> Collapsed(s)[|Collapsed(s)| - 1] == s[|s| - 1]
    decreases |s|
  {
    if s != [] && !IsWhiteSpace(s[|s| - 1]) {
      if IsWhiteSpace(s[0]) {
        var rest := TrimStart(s);
        assert rest != [] && rest[|rest| - 1] == s[|s| - 1];
        CollapsedLast(rest);
        var c := Collapsed(rest);
        assert Collapsed(s) == " " + c;
        assert c != [];
      } else if |s| > 1 {
        var rest := s[1..];
        assert rest[|rest| - 1] == s[|s| - 1];
        CollapsedLast(rest);
        var c := Collapsed(rest);
        assert Collapsed(s) == [s[0]] + c;
        assert c != [] by { assert rest[0] == s[1]; }
      } else {
        assert Collapsed(s) == [s[0]] + Collapsed([]);
      }
    }
  }

  /** Collapsing leaves no two whitespace characters side by side. */
  lemma {:induction false} CollapsedNoAdjacent(s: string)
    ensures forall i :: 0 <= i < |Collapsed(s)| - 1 ==> !(IsWhiteSpace(Collapsed(s)[i]) && IsWhiteSpace(Collapsed(s)[i + 1]))
    decreases |s|
  {
    if s != [] {
      if IsWhiteSpace(s[0]) {
        var rest := TrimStart(s);
        CollapsedNoAdjacent(rest);
        CollapsedEnds(rest);
        if rest == [] {
          assert Collapsed(s) == " ";
        } else {
          assert !IsWhiteSpace(Collapsed(rest)[0]);
          assert Collapsed(s) == " " + Collapsed(rest);
        }
      } else {
        CollapsedNoAdjacent(s[1..]);
        assert Collapsed(s)[1..] == Collapsed(s[1..]);
      }
    }
  }

  /** Collapsing keeps the visible characters. */
  lemma {:induction false} CollapsedVisible(s: string)
    ensures Visible(Collapsed(s)) == Visible(s)
    decreases |s|
  {
    if s != [] {
      if IsWhiteSpace(s[0]) {
        CollapsedVisible(TrimStart(s));
        TrimStartVisible(s);
        assert Visible(" " + Collapsed(TrimStart(s))) == Visible(Collapsed(TrimStart(s)));
      } else {
        CollapsedVisible(s[1..]);
        assert ([s[0]] + Collapsed(s[1..]))[1..] == Collapsed(s[1..]);
      }
    }
  }

  /**
   * What collapsing gives, for a string whose ends are not whitespace: the same first and last
   * characters, no adjacent whitespace, and the same visible characters.
   */
  lemma CollapsedShape(s: string)
    ensures |Collapsed(s)| <= |s|
    ensures s != [] ==> Collapsed(s) != [] && Collapsed(s)[0] == (if IsWhiteSpace(s[0]) then ' ' else s[0])
    ensures s != [] && !IsWhiteSpace(s[|s| - 1]) ==> Collapsed(s)[|Collapsed(s)| - 1] == s[|s| - 1]
    ensures forall i :: 0 <= i < |Collapsed(s)| - 1 ==> !(IsWhiteSpace(Collapsed(s)[i]) && IsWhiteSpace(Collapsed(s)[i + 1]))
    ensures Visible(Collapsed(s)) == Visible(s)
  {
    CollapsedEnds(s);
    CollapsedNoAdjacent(s);
    CollapsedVisible(s);
  }

  lemma {:induction false} TrimEndVisible(s: string)
    ensures Visible(TrimEnd(s)) == Visible(s)
    decreases |s|
  {
    if s != [] && IsWhiteSpace(s[|s| - 1]) {
      var init := s[..|s| - 1];
      VisibleAppend(init, [s[|s| - 1]]);
      assert s == init + [s[|s| - 1]];
      TrimEndVisible(init);
    }
  }

  lemma {:induction false} VisibleAppend(a: string, b: string)
    ensures Visible(a + b) == Visible(a) + Visible(b)
  {
    if a == [] {
      assert a + b == b;
    } else {
      assert (a + b)[0] == a[0] && (a + b)[1..] == a[1..] + b;
      VisibleAppend(a[1..], b);
    }
  }

  /**
   * `CleanUpXml`'s result has no whitespace at either end and no two adjacent whitespace
   * characters, and keeps every non-whitespace character after the marker replacement, in order.
   */
  lemma CleanUpXmlIsClean(s: string)
    ensures Clean(CleanUpXml(s))
    ensures Visible(CleanUpXml(s)) == Visible(NewlineMarkersReplaced(s))
  {
    var t := Trim(NewlineMarkersReplaced(s));
    var e := TrimEnd(NewlineMarkersReplaced(s));
    assert t != [] ==> t[|t| - 1] == e[|e| - 1];
    CollapsedShape(t);
    TrimStartVisible(e);
    TrimEndVisible(NewlineMarkersReplaced(s));
  }

  /* ---- CleanUpXml as words joined by single spaces ---- */

  /** No backslash is followed by an 'n': the text holds no newline marker. */
  predicate NoMarker(r: string)
  {
    forall i :: 0 <= i < |r| - 1 ==> !(r[i] == '\\' && r[i + 1] == 'n')
  }

  /** The length of the run of non-whitespace characters at the front. */
  function WordLength(s: string): (n: nat)
    ensures n <= |s|
    ensures s != [] && !IsWhiteSpace(s[0]) ==> n > 0
  {
    if s == [] || IsWhiteSpace(s[0]) then 0 else 1 + WordLength(s[1..])
  }

  /** The front run holds no whitespace, and whitespace ends it. */
  lemma {:induction false} WordLengthShape(s: string)
    ensures forall i :: 0 <= i < WordLength(s) ==> !IsWhiteSpace(s[i])
    ensures WordLength(s) < |s| ==> IsWhiteSpace(s[WordLength(s)])
    decreases |s|
  {
    if s != [] && !IsWhiteSpace(s[0]) {
      WordLengthShape(s[1..]);
    }
  }

  /** What `TrimEnd` cuts off is whitespace. */
  lemma {:induction false} TrimEndCut(s: string)
    ensures forall i :: |TrimEnd(s)| <= i < |s| ==> IsWhiteSpace(s[i])
    decreases |s|
  {
    if s != [] && IsWhiteSpace(s[|s| - 1]) {
      var init := s[..|s| - 1];
      TrimEndCut(init);
      assert forall i :: 0 <= i < |init| ==> init[i] == s[i];
    }
  }

  /** The maximal runs of non-whitespace characters, in order. */
  function Words(s: string): seq<string>
    decreases |s|
  {
    if s == [] then []
    else if IsWhiteSpace(s[0]) then Words(s[1..])
    else
      var n := WordLength(s);
      [s[..n]] + Words(s[n..])
  }

  /** Every word is non-empty and holds no whitespace. */
  lemma {:induction false} WordsShape(s: string)
    ensures forall i :: 0 <= i < |Words(s)| ==> |Words(s)[i]| > 0 && forall j :: 0 <= j < |Words(s)[i]| ==> !IsWhiteSpace(Words(s)[i][j])
    decreases |s|
  {
    if s != [] {
      if IsWhiteSpace(s[0]) {
        WordsShape(s[1..]);
      } else {
        WordLengthShape(s);
        WordsShape(s[WordLength(s)..]);
      }
    }
  }

  /** The words with one space between each two. */
  function Unwords(ws: seq<string>): string
  {
    if ws == [] then "" else if |ws| == 1 then ws[0] else ws[0] + " " + Unwords(ws[1..])
  }

  lemma {:induction false} AllWhiteSpaceWords(w: string)
    requires forall i :: 0 <= i < |w| ==> IsWhiteSpace(w[i])
    ensures Words(w) == []
    decreases |w|
  {
    if w != [] {
      AllWhiteSpaceWords(w[1..]);
    }
  }

  lemma {:induction false} WordLengthAppend(s: string, w: string)
    requires w == [] || IsWhiteSpace(w[0])
    ensures WordLength(s + w) == WordLength(s)
    decreases |s|
  {
    if s == [] {
      assert s + w == w;
    } else {
      assert (s + w)[0] == s[0] && (s + w)[1..] == s[1..] + w;
      WordLengthAppend(s[1..], w);
    }
  }

  /** Trailing whitespace adds no word. */
  lemma {:induction false} WordsAppendWhiteSpace(s: string, w: string)
    requires forall i :: 0 <= i < |w| ==> IsWhiteSpace(w[i])
    ensures Words(s + w) == Words(s)
    decreases |s|
  {
    if s == [] {
      assert s + w == w;
      AllWhiteSpaceWords(w);
    } else if IsWhiteSpace(s[0]) {
      assert (s + w)[0] == s[0] && (s + w)[1..] == s[1..] + w;
      WordsAppendWhiteSpace(s[1..], w);
    } else {
      var n := WordLength(s);
      WordLengthAppend(s, w);
      assert (s + w)[0] == s[0];
      assert (s + w)[..n] == s[..n] && (s + w)[n..] == s[n..] + w;
      WordsAppendWhiteSpace(s[n..], w);
    }
  }

  /** Leading whitespace adds no word. */
  lemma {:induction false} WordsTrimStart(s: string)
    ensures Words(TrimStart(s)) == Words(s)
    decreases |s|
  {
    if s != [] && IsWhiteSpace(s[0]) {
      WordsTrimStart(s[1..]);
    }
  }

  /** `Trim` keeps the words. */
  lemma {:induction false} WordsTrim(x: string)
    ensures Words(Trim(x)) == Words(x)
  {
    var k := |TrimEnd(x)|;
    var e, w := x[..k], x[k..];
    TrimEndCut(x);
    assert forall i :: 0 <= i < |w| ==> IsWhiteSpace(w[i]) by {
      forall i | 0 <= i < |w|
        ensures IsWhiteSpace(w[i])
      {
        assert w[i] == x[k + i];
      }
    }
    assert x == e + w;
    WordsAppendWhiteSpace(e, w);
    WordsTrimStart(e);
  }

  /** Collapsing passes a whitespace-free front through unchanged. */
  lemma {:induction false} CollapsedWord(a: string, b: string)
    requires forall i :: 0 <= i < |a| ==> !IsWhiteSpace(a[i])
    ensures Collapsed(a + b) == a + Collapsed(b)
    decreases |a|
  {
    if a == [] {
      assert a + b == b;
    } else {
      assert (a + b)[0] == a[0] && (a + b)[1..] == a[1..] + b;
      CollapsedWord(a[1..], b);
    }
  }

  /** The first word of a text that starts with one: collapsing and `Words` both take it off whole. */
  lemma {:induction false} FirstWord(t: string)
    requires t != [] && !IsWhiteSpace(t[0])
    ensures var n := WordLength(t);
      && Collapsed(t) == t[..n] + Collapsed(t[n..])
      && Words(t) == [t[..n]] + Words(t[n..])
  {
    var n := WordLength(t);
    assert t == t[..n] + t[n..];
    WordLengthShape(t);
    CollapsedWord(t[..n], t[n..]);
  }

  lemma {:induction false} UnwordsCons(w: string, ws: seq<string>)
    requires ws != []
    ensures Unwords([w] + ws) == w + " " + Unwords(ws)
  {
    assert ([w] + ws)[1..] == ws;
  }

  /** Whitespace then more text: collapsing gives one space, and `Words` skips the run. */
  lemma {:induction false} GapThenRest(rest: string, u: string)
    requires rest != [] && IsWhiteSpace(rest[0]) && !IsWhiteSpace(rest[|rest| - 1])
    requires u == TrimStart(rest)
    ensures u != [] && !IsWhiteSpace(u[0]) && !IsWhiteSpace(u[|u| - 1]) && |u| < |rest|
    ensures Collapsed(rest) == " " + Collapsed(u)
    ensures Words(rest) == Words(u)
  {
    WordsTrimStart(rest);
  }

  lemma ConcatAssociative(a: string, b: string, c: string)
    ensures a + (b + c) == a + b + c
  {
  }

  /** For a text with no whitespace at either end, collapsing joins its words with single spaces. */
  lemma {:induction false} CollapsedUnwords(t: string)
    requires t == [] || (!IsWhiteSpace(t[0]) && !IsWhiteSpace(t[|t| - 1]))
    ensures Collapsed(t) == Unwords(Words(t))
    ensures t != [] ==> Words(t) != []
    decreases |t|
  {
    if t != [] {
      var n := WordLength(t);
      var word, rest := t[..n], t[n..];
      FirstWord(t);
      if rest == [] {
        assert Words(t) == [word];
      } else {
        WordLengthShape(t);
        assert IsWhiteSpace(rest[0]) && rest[|rest| - 1] == t[|t| - 1];
        var u := TrimStart(rest);
        GapThenRest(rest, u);
        CollapsedUnwords(u);
        var ws := Words(u);
        UnwordsCons(word, ws);
        calc {
          Collapsed(t);
          word + Collapsed(rest);
          word + (" " + Unwords(ws));
          { ConcatAssociative(word, " ", Unwords(ws)); }
          Unwords([word] + ws);
          Unwords(Words(t));
        }
      }
    }
  }

  lemma {:induction false} ReplacedNoMarker(s: string)
    ensures NoMarker(NewlineMarkersReplaced(s))
    ensures s != [] ==>
      && NewlineMarkersReplaced(s) != []
      && NewlineMarkersReplaced(s)[0] == (if |s| >= 2 && s[0] == '\\' && s[1] == 'n' then ' ' else s[0])
    decreases |s|
  {
    if |s| >= 2 && s[0] == '\\' && s[1] == 'n' {
      ReplacedNoMarker(s[2..]);
    } else if s != [] {
      ReplacedNoMarker(s[1..]);
    }
  }

  lemma {:induction false} CollapsedNoMarker(s: string)
    requires NoMarker(s)
    ensures NoMarker(Collapsed(s))
    decreases |s|
  {
    if s != [] {
      if IsWhiteSpace(s[0]) {
        var rest := TrimStart(s);
        assert NoMarker(rest) by {
          assert forall i :: 0 <= i < |rest| ==> rest[i] == s[|s| - |rest| + i];
        }
        CollapsedNoMarker(rest);
      } else {
        CollapsedNoMarker(s[1..]);
        CollapsedEnds(s[1..]);
        assert Collapsed(s)[1..] == Collapsed(s[1..]);
      }
    }
  }

  lemma {:induction false} CollapsedSpaces(s: string)
    ensures forall i :: 0 <= i < |Collapsed(s)| && IsWhiteSpace(Collapsed(s)[i]) ==> Collapsed(s)[i] == ' '
    decreases |s|
  {
    if s != [] {
      if IsWhiteSpace(s[0]) {
        CollapsedSpaces(TrimStart(s));
      } else {
        CollapsedSpaces(s[1..]);
        assert Collapsed(s)[1..] == Collapsed(s[1..]);
      }
    }
  }

  /** Trimming the front of a text that does not end in whitespace leaves it whitespace-free at both ends. */
  lemma {:induction false} TrimStartEnds(e: string)
    requires e == [] || !IsWhiteSpace(e[|e| - 1])
    ensures TrimStart(e) == [] || (!IsWhiteSpace(TrimStart(e)[0]) && !IsWhiteSpace(TrimStart(e)[|TrimStart(e)| - 1]))
    decreases |e|
  {
    if e != [] && IsWhiteSpace(e[0]) {
      var rest := e[1..];
      assert rest == [] || rest[|rest| - 1] == e[|e| - 1];
      TrimStartEnds(rest);
    }
  }

  /** `Trim` leaves no whitespace at either end. */
  lemma {:induction false} TrimEnds(x: string)
    ensures Trim(x) == [] || (!IsWhiteSpace(Trim(x)[0]) && !IsWhiteSpace(Trim(x)[|Trim(x)| - 1]))
  {
    TrimStartEnds(TrimEnd(x));
  }

  /** `Trim` keeps a text free of newline markers. */
  lemma {:induction false} TrimNoMarker(x: string)
    requires NoMarker(x)
    ensures NoMarker(Trim(x))
  {
    var e := TrimEnd(x);
    SliceNoMarker(x, 0, |e|);
    assert e == x[0..|e|];
    var t := TrimStart(e);
    SliceNoMarker(e, |e| - |t|, |e|);
    assert t == e[|e| - |t|..|e|];
  }

  /** A piece of a text without newline markers has none either. */
  lemma SliceNoMarker(x: string, lo: nat, hi: nat)
    requires lo <= hi <= |x| && NoMarker(x)
    ensures NoMarker(x[lo..hi])
  {
    var y := x[lo..hi];
    forall i | 0 <= i < |y| - 1
      ensures !(y[i] == '\\' && y[i + 1] == 'n')
    {
      assert y[i] == x[lo + i] && y[i + 1] == x[lo + i + 1];
    }
  }

  /**
   * `CleanUpXml` removes every newline marker and reduces each whitespace run to one space: the
   * result holds no backslash-n pair, its only whitespace character is ' ', and it is exactly the
   * whitespace-separated words of the marker-replaced text joined by single spaces.
   */
  lemma CleanUpXmlWords(s: string)
    ensures NoMarker(CleanUpXml(s))
    ensures forall i :: 0 <= i < |CleanUpXml(s)| && IsWhiteSpace(CleanUpXml(s)[i]) ==> CleanUpXml(s)[i] == ' '
    ensures CleanUpXml(s) == Unwords(Words(NewlineMarkersReplaced(s)))
  {
    var x := NewlineMarkersReplaced(s);
    var t := Trim(x);
    TrimEnds(x);
    CollapsedUnwords(t);
    WordsTrim(x);
    ReplacedNoMarker(s);
    TrimNoMarker(x);
    CollapsedNoMarker(t);
    CollapsedSpaces(t);
  }
}
