/**
 * The template renderer `compiledTemplate` of index.js: one global replace of the regular
 * expression /<%=([^%>]+)?%>/g whose callback substitutes `data[key.trim()] || ''`.
 * The replace is modelled as a left-to-right scan that, at each offset, either consumes a
 * whole placeholder or copies one character.
 */
module Template {
  import opened Wrappers
  import JsString
  import Concat

  /** A character the capture group `[^%>]` admits. */
  predicate IsNameChar(c: char) {
    c != '%' && c != '>'
  }

  predicate AllNameChars(n: string) {
    forall i :: 0 <= i < |n| ==> IsNameChar(n[i])
  }

  /**
   * Reference meaning of the regular expression: `<%=`, then the name `n` (name characters
   * only, possibly none), then `%>`, occur in `t` starting at offset `i`.
   */
  predicate IsPlaceholderAt(t: string, i: nat, n: string) {
    i + |n| + 5 <= |t|
    && t[i] == '<' && t[i + 1] == '%' && t[i + 2] == '='
    && t[i + 3..i + 3 + |n|] == n && AllNameChars(n)
    && t[i + 3 + |n|] == '%' && t[i + 4 + |n|] == '>'
  }

  ghost predicate ContainsPlaceholder(t: string) {
    exists i: nat, n: string :: IsPlaceholderAt(t, i, n)
  }

  /** `<%=%>`: the regex matches it, but its capture group is undefined. */
  ghost predicate ContainsBarePlaceholder(t: string) {
    exists i: nat :: IsPlaceholderAt(t, i, [])
  }

  /** Length of the longest prefix of `s` made of name characters (the greedy `[^%>]+`). */
  function NameRun(s: string): (k: nat)
    ensures k <= |s|
    ensures forall i :: 0 <= i < k ==> IsNameChar(s[i])
    ensures k < |s| ==> !IsNameChar(s[k])
  {
    if s == [] || !IsNameChar(s[0]) then 0 else 1 + NameRun(s[1..])
  }

  /** A regex match at the start of the text: the captured name and the width of the match. */
  datatype Match = Match(name: string, width: nat)

  /** The regex tried at offset 0 of `t`; every match it reports is a placeholder there. */
  function MatchAt(t: string): (m: Option<Match>)
    ensures m.Some? ==> m.value.width == |m.value.name| + 5 && IsPlaceholderAt(t, 0, m.value.name)
  {
    if 3 <= |t| && t[0] == '<' && t[1] == '%' && t[2] == '=' then
      var k := NameRun(t[3..]);
      if 5 + k <= |t| && t[3 + k] == '%' && t[4 + k] == '>' then
        assert t[3..][..k] == t[3..3 + k];
        Some(Match(t[3..3 + k], k + 5))
      else
        None
    else
      None
  }

  datatype RenderError =
    | UndefinedCapture  // `key.trim()` on the undefined capture of a bare `<%=%>` throws a TypeError

  /**
   * `data[key] || ''` with string values: an absent key and the falsy empty string both give
   * the empty string, so the result is the stored value whenever there is one.
   */
  function Lookup(data: map<string, string>, key: string): (v: string)
    ensures key in data ==> v == data[key]
    ensures key !in data ==> v == ""
  {
    if key in data && data[key] != "" then data[key] else ""
  }

  /** Puts `s` in front of a rendered text; an error passes through. */
  function Prepend(s: string, r: Result<string, RenderError>): Result<string, RenderError> {
    match r
    case Ok(v) => Ok(s + v)
    case Err(e) => Err(e)
  }

  /**
   * compiledTemplate(template, data). It throws exactly when the template holds a bare
   * `<%=%>`, wherever that stands: every other match is replaced and scanning goes on.
   */
  function Render(t: string, data: map<string, string>): (r: Result<string, RenderError>)
    ensures r.Err? <==> ContainsBarePlaceholder(t)
    decreases |t|
  {
    if t == [] then
      assert forall i: nat :: !IsPlaceholderAt(t, i, []);
      Ok([])
    else
      match MatchAt(t)
      case Some(m) =>
        if m.name == [] then
          assert IsPlaceholderAt(t, 0, []);
          Err(UndefinedCapture)
        else
          BareAfterMatch(t, m);
          Prepend(Lookup(data, JsString.Trim(m.name)), Render(t[m.width..], data))
      case None =>
        BareAfterChar(t);
        Prepend([t[0]], Render(t[1..], data))
  }

  // ---------------------------------------------------------------------------------------
  // Facts about the regular expression

  lemma NameRunIs(s: string, k: nat)
    requires k <= |s|
    requires forall i :: 0 <= i < k ==> IsNameChar(s[i])
    requires k < |s| ==> !IsNameChar(s[k])
    ensures NameRun(s) == k
  {
  }

  /** The regex finds every placeholder that starts at offset 0. */
  lemma MatchAtComplete(t: string, n: string)
    requires IsPlaceholderAt(t, 0, n)
    ensures MatchAt(t) == Some(Match(n, |n| + 5))
  {
    var s := t[3..];
    assert forall i :: 0 <= i < |n| ==> s[i] == n[i];
    assert s[|n|] == '%';
    NameRunIs(s, |n|);
  }

  /** Two placeholder occurrences never overlap, so the global replace sees all of them. */
  lemma PlaceholdersDoNotOverlap(t: string, i: nat, n: string, j: nat, m: string)
    requires IsPlaceholderAt(t, i, n) && IsPlaceholderAt(t, j, m)
    requires i <= j < i + |n| + 5
    ensures i == j && n == m
  {
    assert forall p :: i + 3 <= p < i + 3 + |n| ==> t[p] == n[p - i - 3];
    assert forall p :: j + 3 <= p < j + 3 + |m| ==> t[p] == m[p - j - 3];
  }

  /** A bare placeholder cannot start inside a placeholder with a name. */
  lemma BareNotInsideMatch(t: string, n: string, i: nat)
    requires IsPlaceholderAt(t, 0, n) && n != [] && IsPlaceholderAt(t, i, [])
    ensures i >= |n| + 5
  {
    assert forall p :: 3 <= p < 3 + |n| ==> t[p] == n[p - 3];
  }

  lemma PlaceholderShift(t: string, k: nat, i: nat, n: string)
    requires k <= |t|
    ensures IsPlaceholderAt(t[k..], i, n) <==> IsPlaceholderAt(t, k + i, n)
  {
    if i + |n| + 5 <= |t| - k {
      assert t[k..][i + 3..i + 3 + |n|] == t[k + i + 3..k + i + 3 + |n|];
    }
  }

  /** `<%=` n `%>` placed after any text is a placeholder at the end of that text. */
  lemma PlaceholderAfter(p: string, n: string, rest: string)
    requires AllNameChars(n)
    ensures IsPlaceholderAt(p + ("<%=" + n + "%>") + rest, |p|, n)
  {
    var t := p + ("<%=" + n + "%>") + rest;
    assert t[|p| + 3..|p| + 3 + |n|] == n;
  }

  lemma PrependEmpty(r: Result<string, RenderError>)
    ensures Prepend([], r) == r
  {
    match r
    case Ok(v) => assert [] + v == v;
    case Err(_) =>
  }

  lemma PrependPrepend(a: string, b: string, r: Result<string, RenderError>)
    ensures Prepend(a, Prepend(b, r)) == Prepend(a + b, r)
  {
    match r
    case Ok(v) => assert a + (b + v) == (a + b) + v;
    case Err(_) =>
  }

  // ---------------------------------------------------------------------------------------
  // Properties of the renderer

  /** A template without any placeholder is returned unchanged, for any data. */
  lemma {:induction false} RenderVerbatim(t: string, data: map<string, string>)
    requires !ContainsPlaceholder(t)
    ensures Render(t, data) == Ok(t)
    decreases |t|
  {
    if t != [] {
      forall i: nat, n: string ensures !IsPlaceholderAt(t[1..], i, n) {
        PlaceholderShift(t, 1, i, n);
      }
      RenderVerbatim(t[1..], data);
      assert [t[0]] + t[1..] == t;
    }
  }

  /** Past a match with a name, the rest holds a bare placeholder iff the whole text does. */
  lemma BareAfterMatch(t: string, m: Match)
    requires MatchAt(t) == Some(m) && m.name != []
    ensures ContainsBarePlaceholder(t) <==> ContainsBarePlaceholder(t[m.width..])
  {
    if ContainsBarePlaceholder(t) {
      var i: nat :| IsPlaceholderAt(t, i, []);
      BareMovesPastMatch(t, m, i);
    }
    if ContainsBarePlaceholder(t[m.width..]) {
      var i: nat :| IsPlaceholderAt(t[m.width..], i, []);
      PlaceholderShift(t, m.width, i, []);
    }
  }

  /** A bare placeholder in a text that starts with a match lies in the rest after it. */
  lemma BareMovesPastMatch(t: string, m: Match, i: nat)
    requires MatchAt(t) == Some(m) && m.name != [] && IsPlaceholderAt(t, i, [])
    ensures i >= m.width && IsPlaceholderAt(t[m.width..], i - m.width, [])
  {
    BareNotInsideMatch(t, m.name, i);
    PlaceholderShift(t, m.width, i - m.width, []);
  }

  /** Where no match starts, the text holds a bare placeholder iff its tail does. */
  lemma BareAfterChar(t: string)
    requires t != [] && MatchAt(t).None?
    ensures ContainsBarePlaceholder(t) <==> ContainsBarePlaceholder(t[1..])
  {
    forall i: nat | IsPlaceholderAt(t, i, []) ensures IsPlaceholderAt(t[1..], i - 1, []) {
      if i == 0 {
        MatchAtComplete(t, []);
      }
      PlaceholderShift(t, 1, i - 1, []);
    }
    forall i: nat | IsPlaceholderAt(t[1..], i, []) ensures IsPlaceholderAt(t, 1 + i, []) {
      PlaceholderShift(t, 1, i, []);
    }
  }

  /**
   * A placeholder at the front is replaced by the looked-up value of its trimmed name; the
   * value is not rescanned, and rendering carries on after the placeholder.
   */
  lemma RenderPlaceholderFirst(n: string, rest: string, data: map<string, string>)
    requires n != [] && AllNameChars(n)
    ensures Render("<%=" + n + "%>" + rest, data)
         == Prepend(Lookup(data, JsString.Trim(n)), Render(rest, data))
  {
    var t := "<%=" + n + "%>" + rest;
    assert t[3..3 + |n|] == n;
    assert IsPlaceholderAt(t, 0, n);
    MatchAtComplete(t, n);
    assert t[|n| + 5..] == rest;
  }

  /**
   * Text in which no placeholder starts is copied verbatim in front of the rendering of what
   * follows it. A placeholder may still begin after `p`; one that would start inside `p` and
   * run into `rest` is what the precondition excludes.
   */
  lemma {:induction false} RenderPlainPrefix(p: string, rest: string, data: map<string, string>)
    requires forall i: nat, n: string :: i < |p| ==> !IsPlaceholderAt(p + rest, i, n)
    ensures Render(p + rest, data) == Prepend(p, Render(rest, data))
    decreases |p|
  {
    if p == [] {
      assert p + rest == rest;
      PrependEmpty(Render(rest, data));
    } else {
      var t := p + rest;
      assert MatchAt(t).None?;
      assert t[1..] == p[1..] + rest;
      forall i: nat, n: string | i < |p[1..]| ensures !IsPlaceholderAt(p[1..] + rest, i, n) {
        PlaceholderShift(t, 1, i, n);
      }
      RenderPlainPrefix(p[1..], rest, data);
      PrependPrepend([p[0]], p[1..], Render(rest, data));
      assert [p[0]] + p[1..] == p;
    }
  }

  /**
   * A `%`-free text followed by anything that does not start with `%`: no placeholder starts
   * inside that text, since each needs a `%` right after its first character.
   */
  lemma PercentFreeNoPlaceholder(p: string, rest: string)
    requires '%' !in p
    requires rest == [] || rest[0] != '%'
    ensures forall i: nat, n: string :: i < |p| ==> !IsPlaceholderAt(p + rest, i, n)
  {
    var t := p + rest;
    forall i: nat, n: string | i < |p| ensures !IsPlaceholderAt(t, i, n) {
      if i + 1 < |p| {
        assert t[i + 1] == p[i + 1];
      } else if i + 1 < |t| {
        assert t[i + 1] == rest[0];
      }
    }
  }

  /**
   * A single placeholder `<%= name %>` renders to exactly the value stored under `name`
   * (whitespace around the name does not matter), or to the empty string when `name` is absent.
   */
  lemma RenderSlot(w1: string, name: string, w2: string, data: map<string, string>)
    requires JsString.AllWhitespace(w1) && JsString.AllWhitespace(w2) && JsString.IsTrimmed(name)
    requires AllNameChars(name) && w1 + name + w2 != []
    ensures Render("<%=" + w1 + name + w2 + "%>", data) == Ok(if name in data then data[name] else "")
  {
    var n := w1 + name + w2;
    var t := "<%=" + w1 + name + w2 + "%>";
    assert t == "<%=" + n + "%>";
    PaddedNameChars(w1, name, w2);
    RenderSingle(n, data);
    JsString.TrimPadded(w1, name, w2);
  }

  /**
   * Text without `%`, then a placeholder `<%= name %>` padded by one space on each side: the
   * text is copied, the placeholder becomes the value of `name`, and rendering carries on.
   */
  lemma RenderTextThenSlot(p: string, name: string, rest: string, data: map<string, string>)
    requires '%' !in p
    requires name != [] && AllNameChars(name) && JsString.IsTrimmed(name)
    ensures Render(p + ("<%= " + name + " %>") + rest, data)
         == Prepend(p + Lookup(data, name), Render(rest, data))
  {
    var n := " " + name + " ";
    var slot := "<%= " + name + " %>";
    assert slot == "<%=" + n + "%>";
    assert (slot + rest)[0] == '<';
    assert p + slot + rest == p + (slot + rest);
    PercentFreeNoPlaceholder(p, slot + rest);
    RenderPlainPrefix(p, slot + rest, data);
    assert AllNameChars(n) by { PaddedNameChars(" ", name, " "); }
    RenderPlaceholderFirst(n, rest, data);
    assert "<%=" + n + "%>" + rest == slot + rest;
    assert JsString.AllWhitespace(" ");
    JsString.TrimPadded(" ", name, " ");
    PrependPrepend(p, Lookup(data, name), Render(rest, data));
  }

  /**
   * A template made of `%`-free text and two placeholders `<%= n1 %>` and `<%= n2 %>` renders
   * to the text with the two values in place of the placeholders.
   */
  lemma RenderTwoSlots(p1: string, n1: string, p2: string, n2: string, p3: string,
                       data: map<string, string>)
    requires '%' !in p1 && '%' !in p2 && '%' !in p3
    requires n1 != [] && AllNameChars(n1) && JsString.IsTrimmed(n1)
    requires n2 != [] && AllNameChars(n2) && JsString.IsTrimmed(n2)
    ensures Render(p1 + ("<%= " + n1 + " %>") + p2 + ("<%= " + n2 + " %>") + p3, data)
         == Ok(p1 + Lookup(data, n1) + p2 + Lookup(data, n2) + p3)
  {
    var s1 := "<%= " + n1 + " %>";
    var s2 := "<%= " + n2 + " %>";
    var v1 := Lookup(data, n1);
    var v2 := Lookup(data, n2);
    PercentFreeNoPlaceholder(p3, []);
    RenderPlainPrefix(p3, [], data);
    assert p3 + [] == p3;
    assert Render(p3, data) == Ok(p3 + []);
    var tail := p2 + s2 + p3;
    RenderTextThenSlot(p2, n2, p3, data);
    assert Render(tail, data) == Ok(p2 + v2 + p3);
    RenderTextThenSlot(p1, n1, tail, data);
    assert Render(p1 + s1 + tail, data) == Ok(p1 + v1 + (p2 + v2 + p3));
    Concat.Regroup5(p1, s1, p2, s2, p3);
    Concat.Regroup5(p1, v1, p2, v2, p3);
  }

  /** A template that is one placeholder renders to the value of its trimmed name. */
  lemma RenderSingle(n: string, data: map<string, string>)
    requires n != [] && AllNameChars(n)
    ensures Render("<%=" + n + "%>", data) == Ok(Lookup(data, JsString.Trim(n)))
  {
    RenderPlaceholderFirst(n, [], data);
    assert "<%=" + n + "%>" + [] == "<%=" + n + "%>";
    assert Lookup(data, JsString.Trim(n)) + [] == Lookup(data, JsString.Trim(n));
  }

  /** Whitespace consists of name characters, so padding a name keeps it a name. */
  lemma PaddedNameChars(w1: string, name: string, w2: string)
    requires JsString.AllWhitespace(w1) && JsString.AllWhitespace(w2) && AllNameChars(name)
    ensures AllNameChars(w1 + name + w2)
  {
    var n := w1 + name + w2;
    forall i | 0 <= i < |n| ensures IsNameChar(n[i]) {
      if i < |w1| {
        assert n[i] == w1[i];
      } else if i < |w1| + |name| {
        assert n[i] == name[i - |w1|];
      } else {
        assert n[i] == w2[i - |w1| - |name|];
      }
    }
  }

  /** No closing `%>` anywhere: nothing is a placeholder, so the text is returned unchanged. */
  lemma RenderWithoutCloser(t: string, data: map<string, string>)
    requires forall i :: 0 <= i < |t| - 1 ==> !(t[i] == '%' && t[i + 1] == '>')
    ensures Render(t, data) == Ok(t)
  {
    assert !ContainsPlaceholder(t);
    RenderVerbatim(t, data);
  }

  /**
   * `<%=` n `%>` where n holds a `%` or a `>` is not a placeholder and stays untouched
   * (n holding no `<` and no `%>` of its own, so that no other placeholder hides inside).
   */
  lemma RenderForbiddenName(n: string, data: map<string, string>)
    requires !AllNameChars(n) && '<' !in n
    requires forall i :: 0 <= i < |n| - 1 ==> !(n[i] == '%' && n[i + 1] == '>')
    ensures Render("<%=" + n + "%>", data) == Ok("<%=" + n + "%>")
  {
    var t := "<%=" + n + "%>";
    assert forall p :: 3 <= p < 3 + |n| ==> t[p] == n[p - 3];
    assert !ContainsPlaceholder(t);
    RenderVerbatim(t, data);
  }

  /**
   * A substituted value is not expanded again, even when it is the very placeholder it
   * replaces: the template then renders to itself.
   */
  lemma RenderSelfReference(n: string, data: map<string, string>)
    requires n != [] && AllNameChars(n)
    requires JsString.Trim(n) in data && data[JsString.Trim(n)] == "<%=" + n + "%>"
    ensures Render("<%=" + n + "%>", data) == Ok("<%=" + n + "%>")
  {
    RenderSingle(n, data);
  }

  /** A bare `<%=%>` makes the renderer throw. */
  lemma RenderBareFails(p: string, q: string, data: map<string, string>)
    ensures Render(p + "<%=%>" + q, data).Err?
  {
    var t := p + "<%=%>" + q;
    assert IsPlaceholderAt(t, |p|, []);
  }
}
