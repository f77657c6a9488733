/** Math-delimiter handling of the text renderer: the text is split on `$$…$$` and `$…$`
    segments exactly as `String.prototype.split` does with the capturing pattern
    `(\$\$[\s\S]+?\$\$|\$[\s\S]+?\$)`, then every part is classified as block math, inline math
    or plain text and handed to the math renderer, which is a parameter that may fail. */
module MathText {
  import opened Wrappers

  /** "$$" starts at index k of s. */
  predicate DoubleAt(s: string, k: int) { 0 <= k && k + 1 < |s| && s[k] == '$' && s[k + 1] == '$' }

  /** "$" is at index k of s. */
  predicate DollarAt(s: string, k: int) { 0 <= k < |s| && s[k] == '$' }

  /** The first index at or after `from` where "$$" starts. */
  function FindDouble(s: string, from: nat): (r: Option<nat>)
    decreases |s| - from
    ensures r.Some? ==> from <= r.value && DoubleAt(s, r.value)
    ensures r.Some? ==> forall k :: from <= k < r.value ==> !DoubleAt(s, k)
    ensures r.None? ==> forall k :: from <= k ==> !DoubleAt(s, k)
  {
    if from + 1 >= |s| then None
    else if DoubleAt(s, from) then Some(from)
    else FindDouble(s, from + 1)
  }

  /** The first index at or after `from` that holds "$". */
  function FindDollar(s: string, from: nat): (r: Option<nat>)
    decreases |s| - from
    ensures r.Some? ==> from <= r.value && DollarAt(s, r.value)
    ensures r.Some? ==> forall k :: from <= k < r.value ==> !DollarAt(s, k)
    ensures r.None? ==> forall k :: from <= k ==> !DollarAt(s, k)
  {
    if from >= |s| then None
    else if DollarAt(s, from) then Some(from)
    else FindDollar(s, from + 1)
  }

  /** A `$$…$$` segment: at least one character between the delimiters, and closed by the
      first "$$" after that character (the lazy `+?`). */
  ghost predicate BlockSegment(m: string)
  {
    && |m| >= 5 && DoubleAt(m, 0) && DoubleAt(m, |m| - 2)
    && forall k :: 3 <= k < |m| - 2 ==> !DoubleAt(m, k)
  }

  /** A `$…$` segment: at least one character between the delimiters, and closed by the
      first "$" after that character. */
  ghost predicate InlineSegment(m: string)
  {
    && |m| >= 3 && DollarAt(m, 0) && DollarAt(m, |m| - 1)
    && forall k :: 2 <= k < |m| - 1 ==> !DollarAt(m, k)
  }

  /** The end of the delimited segment the pattern matches when anchored at index q, if any
      (the split advances a sticky match one index at a time). */
  function MatchAt(s: string, q: nat): (r: Option<nat>)
    ensures r.Some? ==> q + 3 <= r.value <= |s|
  {
    var close2 := FindDouble(s, q + 3);
    var close1 := FindDollar(s, q + 2);
    if DoubleAt(s, q) && close2.Some? then
      Some(close2.value + 2)
    else if DollarAt(s, q) && close1.Some? then
      Some(close1.value + 1)
    else
      None
  }

  /** What the pattern matches at q is a shortest `$$…$$` or `$…$` segment. */
  lemma MatchAtSegment(s: string, q: nat)
    requires MatchAt(s, q).Some?
    ensures BlockSegment(s[q..MatchAt(s, q).value]) || InlineSegment(s[q..MatchAt(s, q).value])
  {
    var close2 := FindDouble(s, q + 3);
    var close1 := FindDollar(s, q + 2);
    var e := MatchAt(s, q).value;
    var m := s[q..e];
    if DoubleAt(s, q) && close2.Some? {
      assert forall k :: 3 <= k < |m| - 2 ==> (DoubleAt(m, k) <==> DoubleAt(s, q + k));
      assert DollarAt(s, close2.value);
      assert BlockSegment(m);
    } else {
      assert forall k :: 2 <= k < |m| - 1 ==> (DollarAt(m, k) <==> DollarAt(s, q + k));
      assert InlineSegment(m);
    }
  }

  /** Nothing matches at q exactly when q holds no "$" or no "$" follows it from q + 2 on. */
  lemma MatchAtNone(s: string, q: nat)
    ensures MatchAt(s, q).None? <==> !DollarAt(s, q) || forall k :: q + 2 <= k ==> !DollarAt(s, k)
  {
    var close2 := FindDouble(s, q + 3);
    var close1 := FindDollar(s, q + 2);
    if DoubleAt(s, q) && close2.Some? {
      assert DollarAt(s, close2.value);
    }
  }

  /** The `$$…$$` alternative wins whenever a closing "$$" follows an opening one. */
  lemma MatchAtPrefersBlock(s: string, q: nat, k: nat)
    requires q + 3 <= k && DoubleAt(s, q) && DoubleAt(s, k)
    ensures MatchAt(s, q).Some? && BlockSegment(s[q..MatchAt(s, q).value])
  {
    var close2 := FindDouble(s, q + 3);
    var m := s[q..close2.value + 2];
    assert forall i :: 3 <= i < |m| - 2 ==> (DoubleAt(m, i) <==> DoubleAt(s, q + i));
    assert DollarAt(s, close2.value);
  }

  function Concat(parts: seq<string>): (r: string)
  {
    if parts == [] then "" else parts[0] + Concat(parts[1..])
  }

  /** The split loop: `p` is where the current unmatched part began, `q` the index being tried.
      Unmatched text and matched segments alternate, starting and ending with unmatched text
      (possibly empty). */
  function SplitFrom(s: string, p: nat, q: nat): (parts: seq<string>)
    requires p <= q <= |s|
    decreases |s| - q
    ensures |parts| % 2 == 1
  {
    if q == |s| then [s[p..]]
    else
      match MatchAt(s, q)
      case Some(e) => [s[p..q], s[q..e]] + SplitFrom(s, e, e)
      case None => SplitFrom(s, p, q + 1)
  }

  /** `text.split(pattern)` with the capturing delimiter pattern. */
  function Split(text: string): (parts: seq<string>)
    ensures |parts| % 2 == 1
  {
    SplitFrom(text, 0, 0)
  }

  lemma {:induction false} ConcatPair(a: string, b: string, rest: seq<string>)
    ensures Concat([a, b] + rest) == a + b + Concat(rest)
  {
    assert ([a, b] + rest)[1..] == [b] + rest;
    assert ([b] + rest)[1..] == rest;
  }

  lemma {:induction false} SplitFromConcat(s: string, p: nat, q: nat)
    requires p <= q <= |s|
    decreases |s| - q
    ensures Concat(SplitFrom(s, p, q)) == s[p..]
  {
    if q == |s| {
      assert Concat([s[p..]]) == s[p..] + Concat([]);
    } else {
      match MatchAt(s, q)
      case Some(e) =>
        SplitFromConcat(s, e, e);
        ConcatPair(s[p..q], s[q..e], SplitFrom(s, e, e));
        assert s[p..q] + s[q..e] + s[e..] == s[p..];
      case None =>
        SplitFromConcat(s, p, q + 1);
    }
  }

  /** Splitting loses nothing: the parts concatenate back to the original text, because the
      capturing group keeps every delimited segment. */
  lemma SplitConcat(text: string)
    ensures Concat(Split(text)) == text
  {
    SplitFromConcat(text, 0, 0);
    assert text[0..] == text;
  }

  /** The facts SplitFromPartAt states about part j of `parts`, split from offset p. */
  ghost predicate PartFacts(s: string, parts: seq<string>, p: nat, j: nat)
    requires j < |parts|
  {
    var o := p + |Concat(parts[..j])|;
    && o + |parts[j]| <= |s| && parts[j] == s[o..o + |parts[j]|]
    && (j % 2 == 0 ==> forall k :: o <= k < o + |parts[j]| ==> MatchAt(s, k).None?)
    && (j % 2 == 1 ==> MatchAt(s, o) == Some(o + |parts[j]|))
  }

  /** Part facts carry over past a leading unmatched part and the segment after it. */
  lemma {:induction false} PartFactsShift(s: string, a: string, b: string, rest: seq<string>, p: nat, j: nat)
    requires 2 <= j < |rest| + 2
    requires PartFacts(s, rest, p + |a| + |b|, j - 2)
    ensures PartFacts(s, [a, b] + rest, p, j)
  {
    var parts := [a, b] + rest;
    assert parts[..j] == [a, b] + rest[..j - 2];
    ConcatPair(a, b, rest[..j - 2]);
    assert parts[j] == rest[j - 2];
  }

  /** Part facts for the final part, when the loop has reached the end of the text. */
  lemma PartFactsAtEnd(s: string, p: nat, q: nat, j: nat)
    requires p <= q == |s|
    requires forall k :: p <= k < q ==> MatchAt(s, k).None?
    requires j < |SplitFrom(s, p, q)|
    ensures PartFacts(s, SplitFrom(s, p, q), p, j)
  {
    var parts := SplitFrom(s, p, q);
    assert parts == [s[p..]];
    assert parts[..j] == [];
  }

  /** Part facts for the unmatched part and the segment produced by a match at q. */
  lemma PartFactsAtMatch(s: string, p: nat, q: nat, j: nat)
    requires p <= q < |s|
    requires forall k :: p <= k < q ==> MatchAt(s, k).None?
    requires MatchAt(s, q).Some? && j <= 1
    ensures PartFacts(s, SplitFrom(s, p, q), p, j)
  {
    var parts := SplitFrom(s, p, q);
    var e := MatchAt(s, q).value;
    assert parts == [s[p..q], s[q..e]] + SplitFrom(s, e, e);
    if j == 0 {
      assert parts[..j] == [];
    } else {
      assert parts[..j] == [s[p..q]];
      assert Concat([s[p..q]]) == s[p..q] + Concat([]);
    }
  }

  lemma {:induction false} SplitFromPartAt(s: string, p: nat, q: nat, j: nat)
    requires p <= q <= |s|
    requires forall k :: p <= k < q ==> MatchAt(s, k).None?
    requires j < |SplitFrom(s, p, q)|
    decreases |s| - q
    ensures PartFacts(s, SplitFrom(s, p, q), p, j)
  {
    if q == |s| {
      PartFactsAtEnd(s, p, q, j);
    } else if MatchAt(s, q).None? {
      SplitFromPartAt(s, p, q + 1, j);
    } else if j <= 1 {
      PartFactsAtMatch(s, p, q, j);
    } else {
      var e := MatchAt(s, q).value;
      assert SplitFrom(s, p, q) == [s[p..q], s[q..e]] + SplitFrom(s, e, e);
      SplitFromPartAt(s, e, e, j - 2);
      PartFactsShift(s, s[p..q], s[q..e], SplitFrom(s, e, e), p, j);
    }
  }

  /** The split is the leftmost-first decomposition of the text: the j-th part sits at offset
      `o` (the length of the parts before it); no delimited segment starts anywhere inside an
      unmatched (even) part, and every matched (odd) part is exactly the segment the pattern
      matches at its offset. */
  lemma SplitPartAt(text: string, j: nat)
    requires j < |Split(text)|
    ensures var parts := Split(text);
      var o := |Concat(parts[..j])|;
      && o + |parts[j]| <= |text| && parts[j] == text[o..o + |parts[j]|]
      && (j % 2 == 0 ==> forall k :: o <= k < o + |parts[j]| ==> MatchAt(text, k).None?)
      && (j % 2 == 1 ==> MatchAt(text, o) == Some(o + |parts[j]|))
  {
    SplitFromPartAt(text, 0, 0, j);
    assert PartFacts(text, Split(text), 0, j);
  }

  /** Every matched part is a shortest `$$…$$` or `$…$` segment with at least one character
      between its delimiters. */
  lemma MatchedPartIsSegment(text: string, j: nat)
    requires j < |Split(text)| && j % 2 == 1
    ensures BlockSegment(Split(text)[j]) || InlineSegment(Split(text)[j])
  {
    SplitPartAt(text, j);
    MatchAtSegment(text, |Concat(Split(text)[..j])|);
  }

  lemma {:induction false} SplitFromNoDollar(s: string, p: nat, q: nat)
    requires p <= q <= |s|
    requires forall k :: 0 <= k < |s| ==> s[k] != '$'
    decreases |s| - q
    ensures SplitFrom(s, p, q) == [s[p..]]
  {
    if q < |s| {
      assert !DollarAt(s, q);
      SplitFromNoDollar(s, p, q + 1);
    }
  }

  /** A text without "$" is one plain part. */
  lemma NoDollarSingleton(text: string)
    requires forall k :: 0 <= k < |text| ==> text[k] != '$'
    ensures Split(text) == [text]
  {
    SplitFromNoDollar(text, 0, 0);
    assert text[0..] == text;
  }

  predicate StartsWith(s: string, prefix: string) { |prefix| <= |s| && s[..|prefix|] == prefix }

  predicate EndsWith(s: string, suffix: string) { |suffix| <= |s| && s[|s| - |suffix|..] == suffix }

  /** `String.prototype.slice(start, end)`: negative indices count from the end, indices are
      clamped to the string, and an empty range gives "". */
  function JsSlice(s: string, start: int, end: int): (r: string)
    ensures |r| <= |s|
  {
    var from := if start < 0 then (if |s| + start < 0 then 0 else |s| + start)
                else (if start > |s| then |s| else start);
    var to := if end < 0 then (if |s| + end < 0 then 0 else |s| + end)
              else (if end > |s| then |s| else end);
    if from < to then s[from..to] else ""
  }

  /** How one part is shown: block math, inline math, or plain text. */
  datatype Piece = BlockMath(content: string) | InlineMath(content: string) | Plain

  /** Block math when the part starts and ends with "$$", else inline math when it starts and
      ends with "$", else plain; the math content is the part with its delimiters cut off by
      `slice(2, -2)` or `slice(1, -1)`. */
  function Classify(part: string): (r: Piece)
    ensures r.BlockMath? <==> StartsWith(part, "$$") && EndsWith(part, "$$")
    ensures r.InlineMath? <==> !(StartsWith(part, "$$") && EndsWith(part, "$$")) && StartsWith(part, "$") && EndsWith(part, "$")
    ensures r.BlockMath? ==> if |part| >= 4 then part == "$$" + r.content + "$$" else r.content == ""
    ensures r.InlineMath? ==> if |part| >= 2 then part == "$" + r.content + "$" else r.content == ""
  {
    if StartsWith(part, "$$") && EndsWith(part, "$$") then
      var c := JsSlice(part, 2, -2);
      assert |part| >= 4 ==> part == part[..2] + c + part[|part| - 2..];
      BlockMath(c)
    else if StartsWith(part, "$") && EndsWith(part, "$") then
      var c := JsSlice(part, 1, -1);
      assert |part| >= 2 ==> part == part[..1] + c + part[|part| - 1..];
      InlineMath(c)
    else Plain
  }

  /** A matched `$$…$$` segment is block math with the text between its delimiters. */
  lemma BlockSegmentIsBlockMath(m: string)
    requires BlockSegment(m)
    ensures Classify(m) == BlockMath(m[2..|m| - 2])
  {
    assert m[..2] == "$$" && m[|m| - 2..] == "$$";
  }

  /** A matched `$…$` segment is inline math with the text between its delimiters, except the
      three-character segment "$$$", which also starts and ends with "$$". */
  lemma InlineSegmentIsInlineMath(m: string)
    requires InlineSegment(m) && m != "$$$"
    ensures Classify(m) == InlineMath(m[1..|m| - 1])
  {
    assert m[..1] == "$" && m[|m| - 1..] == "$";
    if |m| == 3 {
      assert m == [m[0], m[1], m[2]];
    } else {
      assert !DollarAt(m, |m| - 2);
    }
  }

  /** Parts too short to hold content: a lone "$" is (empty) inline math, and "$$" and the
      segment "$$$" are (empty) block math. */
  lemma ShortParts()
    ensures Classify("$") == InlineMath("")
    ensures Classify("$$") == BlockMath("")
    ensures Classify("$$$") == BlockMath("")
  {
    assert "$$"[..2] == "$$";
    assert "$$$"[..2] == "$$" && "$$$"[1..] == "$$";
  }

  /** One part as shown: rendered math markup, or the literal part. */
  datatype Rendered = MathMarkup(html: string, display: bool) | Literal(text: string)

  /** Render one part; `render(content, displayMode)` is the math renderer and is `None` when
      it throws. Plain parts and parts whose rendering failed are shown as the original part,
      delimiters included. */
  function RenderPart(part: string, render: (string, bool) -> Option<string>): (r: Rendered)
    ensures r.Literal? ==> r.text == part
    ensures Classify(part).Plain? ==> r.Literal?
    ensures r.MathMarkup? <==> !Classify(part).Plain? && render(Classify(part).content, Classify(part).BlockMath?).Some?
    ensures r.MathMarkup? ==>
      r.display == Classify(part).BlockMath? && Some(r.html) == render(Classify(part).content, r.display)
  {
    match Classify(part)
    case BlockMath(c) => (match render(c, true) case Some(h) => MathMarkup(h, true) case None => Literal(part))
    case InlineMath(c) => (match render(c, false) case Some(h) => MathMarkup(h, false) case None => Literal(part))
    case Plain => Literal(part)
  }

  /** The rendered text: one piece per part, in the order of the parts. */
  function FormattedText(text: string, render: (string, bool) -> Option<string>): (r: seq<Rendered>)
    ensures |r| == |Split(text)|
    ensures forall i :: 0 <= i < |r| ==> r[i] == RenderPart(Split(text)[i], render)
  {
    var parts := Split(text);
    seq(|parts|, i requires 0 <= i < |parts| => RenderPart(parts[i], render))
  }

  /** The literal text of a sequence of shown pieces. */
  function LiteralText(rs: seq<Rendered>): (r: string)
  {
    if rs == [] then "" else (if rs[0].Literal? then rs[0].text else "") + LiteralText(rs[1..])
  }

  lemma {:induction false} LiteralsOfParts(rs: seq<Rendered>, parts: seq<string>)
    requires |rs| == |parts|
    requires forall i :: 0 <= i < |rs| ==> rs[i] == Literal(parts[i])
    ensures LiteralText(rs) == Concat(parts)
  {
    if rs != [] {
      LiteralsOfParts(rs[1..], parts[1..]);
    }
  }

  /** When every rendering fails, the text is shown exactly as written. */
  lemma FailedRenderingShowsOriginal(text: string, render: (string, bool) -> Option<string>)
    requires forall c, d :: render(c, d).None?
    ensures LiteralText(FormattedText(text, render)) == text
  {
    var rs := FormattedText(text, render);
    LiteralsOfParts(rs, Split(text));
    SplitConcat(text);
  }

  /** Text without "$" is shown as one literal piece. */
  lemma NoDollarShownLiterally(text: string, render: (string, bool) -> Option<string>)
    requires forall k :: 0 <= k < |text| ==> text[k] != '$'
    ensures FormattedText(text, render) == [Literal(text)]
  {
    NoDollarSingleton(text);
    if |text| > 0 {
      assert text[..1] == [text[0]];
      assert !StartsWith(text, "$");
    }
  }
}
