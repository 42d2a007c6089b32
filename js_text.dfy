/**
 * The JavaScript string operations the submission path relies on:
 * `String.prototype.trim`, truthiness of an optional string, `||` fallback,
 * `replace(/\n/g, '<br>')`, `Array.prototype.join` and `padStart`.
 */
module JsText {
  import opened Wrappers

  /** The code points `trim` removes: ECMAScript WhiteSpace and LineTerminator. */
  predicate IsSpace(c: char) {
    || c == ' ' || c == '\t' || c == '\n' || c == '\r'
    || c == '\U{000B}' || c == '\U{000C}' || c == '\U{00A0}' || c == '\U{FEFF}'
    || c == '\U{1680}' || ('\U{2000}' <= c <= '\U{200A}')
    || c == '\U{2028}' || c == '\U{2029}' || c == '\U{202F}' || c == '\U{205F}' || c == '\U{3000}'
  }

  predicate AllSpace(s: string) {
    forall i :: 0 <= i < |s| ==> IsSpace(s[i])
  }

  /** Drops leading white space: the result is the suffix of `s` that starts at its first non-space. */
  function TrimStart(s: string): (r: string)
    ensures |r| <= |s|
    ensures AllSpace(s[..|s| - |r|])
    ensures r == [] || !IsSpace(r[0])
  {
    if s != [] && IsSpace(s[0]) then TrimStart(s[1..]) else s
  }

  /** What `TrimStart` keeps is the tail of the text. */
  lemma {:induction false} TrimStartSuffix(s: string)
    ensures TrimStart(s) == s[|s| - |TrimStart(s)|..]
  {
    if s != [] && IsSpace(s[0]) {
      TrimStartSuffix(s[1..]);
      assert s[1..][|s| - 1 - |TrimStart(s)|..] == s[|s| - |TrimStart(s)|..];
    }
  }

  /** Leading white space in front of text that starts with a non-space is exactly what `TrimStart` drops. */
  lemma {:induction false} TrimStartSkips(ws: string, t: string)
    requires AllSpace(ws) && (t == [] || !IsSpace(t[0]))
    ensures TrimStart(ws + t) == t
  {
    if ws == [] {
      assert ws + t == t;
    } else {
      assert (ws + t)[0] == ws[0];
      assert (ws + t)[1..] == ws[1..] + t;
      TrimStartSkips(ws[1..], t);
    }
  }

  /** Drops trailing white space: the result is the prefix of `s` that ends at its last non-space. */
  function TrimEnd(s: string): (r: string)
    ensures |r| <= |s| && r == s[..|r|]
    ensures AllSpace(s[|r|..])
    ensures r == [] || !IsSpace(r[|r| - 1])
  {
    if s != [] && IsSpace(s[|s| - 1]) then TrimEnd(s[..|s| - 1]) else s
  }

  /** `s.trim()`: no white space is left at either end. */
  function Trim(s: string): (r: string)
    ensures |r| <= |s|
    ensures r == [] || (!IsSpace(r[0]) && !IsSpace(r[|r| - 1]))
  {
    TrimEnd(TrimStart(s))
  }

  /** `!s.trim()`: the string is empty once trimmed. */
  predicate IsBlank(s: string) {
    Trim(s) == []
  }

  /** A string is blank exactly when every character of it is white space. */
  lemma BlankIffAllSpace(s: string)
    ensures IsBlank(s) <==> AllSpace(s)
  {
    var t := TrimStart(s);
    TrimStartSuffix(s);
    assert s == s[..|s| - |t|] + t;
    assert t[0..] == t;
    if AllSpace(s) {
      assert AllSpace(t);
    }
    if IsBlank(s) {
      assert AllSpace(t);
      assert s[..|s| - |t|] == s;
    }
  }

  /** The trimmed text is a piece of the original with no white space at either end. */
  lemma TrimShape(s: string)
    ensures exists i, j :: 0 <= i <= j <= |s| && Trim(s) == s[i..j]
    ensures Trim(s) == [] || (!IsSpace(Trim(s)[0]) && !IsSpace(Trim(s)[|Trim(s)| - 1]))
  {
    var t := TrimStart(s);
    var u := TrimEnd(t);
    var i := |s| - |t|;
    TrimStartSuffix(s);
    assert u == s[i..i + |u|];
    if u != [] {
      assert u[0] == t[0];
    }
  }

  /** Trimming twice is trimming once, so a trimmed value that was not blank stays non-blank. */
  lemma TrimIdempotent(s: string)
    ensures Trim(Trim(s)) == Trim(s)
    ensures IsBlank(Trim(s)) <==> IsBlank(s)
  {
    var r := Trim(s);
    TrimShape(s);
    assert TrimStart(r) == r;
    assert TrimEnd(r) == r;
  }

  /** JavaScript truthiness of a value that is either a string or absent. */
  predicate Truthy(v: Option<string>) {
    v.Some? && v.value != ""
  }

  /** `v || fallback` for a value that is either a string or absent. */
  function OrElse(v: Option<string>, fallback: string): (r: string)
    ensures Truthy(v) ==> r == v.value
    ensures !Truthy(v) ==> r == fallback
  {
    if Truthy(v) then v.value else fallback
  }

  /** `s` occurs somewhere in `text`. */
  predicate Contains(text: string, s: string) {
    exists i :: 0 <= i <= |text| - |s| && OccursAt(text, s, i)
  }

  /** `s` occurs in `text` starting at index `i`. */
  predicate OccursAt(text: string, s: string, i: int) {
    0 <= i <= |text| - |s| && text[i..i + |s|] == s
  }

  lemma ContainsEnd(a: string, s: string)
    ensures Contains(a + s, s)
  {
    assert OccursAt(a + s, s, |a|);
  }

  lemma ContainsExtend(text: string, s: string, more: string)
    requires Contains(text, s)
    ensures Contains(text + more, s)
  {
    var i :| 0 <= i <= |text| - |s| && OccursAt(text, s, i);
    assert (text + more)[i..i + |s|] == text[i..i + |s|];
    assert OccursAt(text + more, s, i);
  }

  /** `a + s + b` contains `s`. */
  lemma ContainsMiddle(a: string, s: string, b: string)
    ensures Contains(a + s + b, s)
  {
    ContainsEnd(a, s);
    ContainsExtend(a + s, s, b);
  }

  /** A piece of text that contains `s`, with anything around it, still contains `s`. */
  lemma ContainsWithin(pre: string, text: string, post: string, s: string)
    requires Contains(text, s)
    ensures Contains(pre + text + post, s)
  {
    var i :| 0 <= i <= |text| - |s| && OccursAt(text, s, i);
    assert (pre + text + post)[|pre| + i..|pre| + i + |s|] == text[i..i + |s|];
    assert OccursAt(pre + text + post, s, |pre| + i);
  }

  /** Text shown inside a piece of a text is shown in the text. */
  lemma ContainsTrans(a: string, b: string, c: string)
    requires Contains(a, b) && Contains(b, c)
    ensures Contains(a, c)
  {
    var i :| 0 <= i <= |a| - |b| && OccursAt(a, b, i);
    var j :| 0 <= j <= |b| - |c| && OccursAt(b, c, j);
    forall k | 0 <= k < |c|
      ensures a[i + j + k] == c[k]
    {
      assert b[j + k] == c[k];
      assert a[i + j + k] == a[i..i + |b|][j + k];
    }
    assert a[i + j..i + j + |c|] == c;
    assert OccursAt(a, c, i + j);
  }

  /** A template with two holes shows what fills them. */
  lemma TemplateShows2(p0: string, x1: string, p1: string, x2: string, p2: string)
    ensures Contains(p0 + x1 + p1 + x2 + p2, x1)
    ensures Contains(p0 + x1 + p1 + x2 + p2, x2)
  {
    assert p0 + x1 + p1 + x2 + p2 == p0 + x1 + (p1 + x2 + p2);
    ContainsMiddle(p0, x1, p1 + x2 + p2);
    ContainsMiddle(p0 + x1 + p1, x2, p2);
  }

  /** A template with four holes shows what fills them. */
  lemma TemplateShows4(p0: string, x1: string, p1: string, x2: string, p2: string,
                       x3: string, p3: string, x4: string, p4: string)
    ensures var t := p0 + x1 + p1 + x2 + p2 + x3 + p3 + x4 + p4;
      Contains(t, x1) && Contains(t, x2) && Contains(t, x3) && Contains(t, x4)
  {
    var t := p0 + x1 + p1 + x2 + p2 + x3 + p3 + x4 + p4;
    assert t == p0 + x1 + p1 + x2 + (p2 + x3 + p3 + x4 + p4);
    TemplateShows2(p0, x1, p1, x2, p2 + x3 + p3 + x4 + p4);
    assert t == (p0 + x1 + p1 + x2 + p2) + x3 + p3 + x4 + p4;
    TemplateShows2(p0 + x1 + p1 + x2 + p2, x3, p3, x4, p4);
  }

  /** The string `<br>` that stands for a line break in the HTML bodies. */
  const LineBreak: string := "<br>"

  /** `s.replace(/\n/g, '<br>')` */
  function ReplaceNewlines(s: string): (r: string)
    ensures '\n' !in r
  {
    if s == [] then []
    else (if s[0] == '\n' then LineBreak else [s[0]]) + ReplaceNewlines(s[1..])
  }

  /** Replacing works piece by piece. */
  lemma {:induction false} ReplaceNewlinesAppend(a: string, b: string)
    ensures ReplaceNewlines(a + b) == ReplaceNewlines(a) + ReplaceNewlines(b)
  {
    if a == [] {
      assert a + b == b;
    } else {
      assert (a + b)[0] == a[0];
      assert (a + b)[1..] == a[1..] + b;
      ReplaceNewlinesAppend(a[1..], b);
    }
  }

  /** Text without line breaks is left as it is. */
  lemma {:induction false} ReplaceNewlinesNoop(s: string)
    requires '\n' !in s
    ensures ReplaceNewlines(s) == s
  {
    if s != [] {
      assert s[0] in s;
      assert forall c :: c in s[1..] ==> c in s;
      ReplaceNewlinesNoop(s[1..]);
    }
  }

  /** Two lines joined by a newline are rendered as the same two lines separated by `<br>`. */
  lemma TwoLinesRendered(a: string, b: string)
    requires '\n' !in a && '\n' !in b
    ensures ReplaceNewlines(a + "\n" + b) == a + LineBreak + b
  {
    assert ReplaceNewlines("\n") == LineBreak by {
      assert "\n"[1..] == [];
    }
    ReplaceNewlinesAppend(a + "\n", b);
    ReplaceNewlinesAppend(a, "\n");
    ReplaceNewlinesNoop(a);
    ReplaceNewlinesNoop(b);
    assert ReplaceNewlines(a + "\n") == a + LineBreak;
  }

  /** The inverse reading of the rendered text: every `<br>` back to a newline. */
  function RestoreNewlines(r: string): string
  {
    if r == [] then []
    else if |r| >= 4 && r[..4] == LineBreak then "\n" + RestoreNewlines(r[4..])
    else [r[0]] + RestoreNewlines(r[1..])
  }

  /** Text that contains no `<` is recovered exactly from its rendering. */
  lemma {:induction false} ReplaceNewlinesRoundTrip(s: string)
    requires '<' !in s
    ensures RestoreNewlines(ReplaceNewlines(s)) == s
  {
    if s != [] {
      assert s[0] in s;
      assert forall c :: c in s[1..] ==> c in s;
      ReplaceNewlinesRoundTrip(s[1..]);
      var rest := ReplaceNewlines(s[1..]);
      if s[0] == '\n' {
        assert ReplaceNewlines(s) == LineBreak + rest;
        assert (LineBreak + rest)[..4] == LineBreak;
        assert (LineBreak + rest)[4..] == rest;
      } else {
        assert ReplaceNewlines(s) == [s[0]] + rest;
        assert ([s[0]] + rest)[1..] == rest;
      }
    }
  }

  /** `parts.join(sep)` */
  function Join(parts: seq<string>, sep: string): (r: string)
    ensures |parts| > 0 ==> |parts[0]| <= |r| && r[..|parts[0]|] == parts[0]
  {
    if |parts| == 0 then ""
    else if |parts| == 1 then parts[0]
    else parts[0] + sep + Join(parts[1..], sep)
  }

  /** Every part is shown in the joined text. */
  lemma {:induction false} JoinContainsEach(parts: seq<string>, sep: string, k: nat)
    requires k < |parts|
    ensures Contains(Join(parts, sep), parts[k])
  {
    if |parts| == 1 {
      ContainsEnd([], parts[0]);
      assert [] + parts[0] == parts[0];
    } else if k == 0 {
      ContainsEnd([], parts[0]);
      assert [] + parts[0] == parts[0];
      ContainsExtend(parts[0], parts[0], sep + Join(parts[1..], sep));
      assert parts[0] + (sep + Join(parts[1..], sep)) == Join(parts, sep);
    } else {
      JoinContainsEach(parts[1..], sep, k - 1);
      var tail := Join(parts[1..], sep);
      var i :| 0 <= i <= |tail| - |parts[k]| && OccursAt(tail, parts[k], i);
      var head := parts[0] + sep;
      assert Join(parts, sep) == head + tail;
      assert (head + tail)[|head| + i..|head| + i + |parts[k]|] == tail[i..i + |parts[k]|];
      assert OccursAt(head + tail, parts[k], |head| + i);
    }
  }

  /** A joined list whose first entry is not blank is not blank. */
  lemma JoinNotBlank(parts: seq<string>, sep: string)
    requires |parts| > 0 && !IsBlank(parts[0])
    ensures !IsBlank(Join(parts, sep))
  {
    var r := Join(parts, sep);
    BlankIffAllSpace(parts[0]);
    BlankIffAllSpace(r);
    var i :| 0 <= i < |parts[0]| && !IsSpace(parts[0][i]);
    assert r[i] == r[..|parts[0]|][i];
  }

  /** `s.padStart(width, fill)` for a one-character fill string. */
  function PadStart(s: string, width: nat, fill: char): (r: string)
    ensures |r| == if |s| >= width then |s| else width
    ensures r[|r| - |s|..] == s
    ensures forall i :: 0 <= i < |r| - |s| ==> r[i] == fill
    decreases width - |s|
  {
    if |s| >= width then s else PadStart([fill] + s, width, fill)
  }
}
