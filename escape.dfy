/**
 * HTML escaping of text taken from the repository API (`escapeHtml` in script.js).
 * The source chains three `replaceAll` calls: `&` first, then `<`, then `>`.
 * Beside that definition stand a one-pass, character-by-character reference
 * definition and its inverse, `Unescape`.
 */
module Escape {
  import opened Wrappers

  /** `s.replaceAll(c, rep)` for a one-character pattern `c`. */
  function ReplaceAll(s: string, c: char, rep: string): (r: string)
    ensures forall x :: x in r ==> x in rep || (x in s && x != c)
    ensures c !in s ==> r == s
  {
    if s == [] then []
    else (if s[0] == c then rep else [s[0]]) + ReplaceAll(s[1..], c, rep)
  }

  predicate IsSpecial(c: char) {
    c == '&' || c == '<' || c == '>'
  }

  /** The escaping applied to every string interpolated into a card. */
  function EscapeHtml(s: string): (r: string)
    ensures '<' !in r && '>' !in r
    ensures (forall i :: 0 <= i < |s| ==> !IsSpecial(s[i])) ==> r == s
  {
    ReplaceAll(ReplaceAll(ReplaceAll(s, '&', "&amp;"), '<', "&lt;"), '>', "&gt;")
  }

  /** `escapeHtml(v)` on a value that may be absent: `String(v || '')` first. */
  function EscapeValue(v: Option<string>): (r: string)
    ensures v == None || v == Some("") ==> r == ""
    ensures v != None ==> r == EscapeHtml(v.value) && Unescape(r) == v.value
    ensures '<' !in r && '>' !in r
  {
    match v
    case None => ""
    case Some(s) => UnescapeEscapeHtml(s); EscapeHtml(s)
  }

  // ---------------------------------------------------------------------------
  // Reference definition: escape each character on its own

  function EscapeChar(c: char): string {
    if c == '&' then "&amp;"
    else if c == '<' then "&lt;"
    else if c == '>' then "&gt;"
    else [c]
  }

  function EscapeEach(s: string): string {
    if s == [] then [] else EscapeChar(s[0]) + EscapeEach(s[1..])
  }

  lemma {:induction false} ReplaceAllAppend(a: string, b: string, c: char, rep: string)
    ensures ReplaceAll(a + b, c, rep) == ReplaceAll(a, c, rep) + ReplaceAll(b, c, rep)
  {
    if a == [] {
      assert a + b == b;
    } else {
      assert (a + b)[0] == a[0];
      assert (a + b)[1..] == a[1..] + b;
      ReplaceAllAppend(a[1..], b, c, rep);
    }
  }

  lemma ReplaceAllOne(c: char, pat: char, rep: string)
    ensures ReplaceAll([c], pat, rep) == if c == pat then rep else [c]
  {
    assert [c][1..] == [];
    assert ReplaceAll([], pat, rep) == [];
  }

  /** The three chained replacements of one character give that character's escape. */
  lemma EscapeOneChar(c: char)
    ensures EscapeHtml([c]) == EscapeChar(c)
  {
    ReplaceAllOne(c, '&', "&amp;");
    if c == '&' {
      assert '<' !in "&amp;" && '>' !in "&amp;";
    } else {
      ReplaceAllOne(c, '<', "&lt;");
      if c == '<' {
        assert '>' !in "&lt;";
      } else {
        ReplaceAllOne(c, '>', "&gt;");
      }
    }
  }

  /**
   * Replacing `&` first is what makes the chain equal to a one-pass escape:
   * the entities produced by the later steps are not escaped again.
   */
  lemma {:induction false} EscapeHtmlIsCharwise(s: string)
    ensures EscapeHtml(s) == EscapeEach(s)
  {
    if s != [] {
      var t := s[1..];
      assert s == [s[0]] + t;
      ReplaceAllAppend([s[0]], t, '&', "&amp;");
      var a1, a2 := ReplaceAll([s[0]], '&', "&amp;"), ReplaceAll(t, '&', "&amp;");
      ReplaceAllAppend(a1, a2, '<', "&lt;");
      var b1, b2 := ReplaceAll(a1, '<', "&lt;"), ReplaceAll(a2, '<', "&lt;");
      ReplaceAllAppend(b1, b2, '>', "&gt;");
      EscapeOneChar(s[0]);
      EscapeHtmlIsCharwise(t);
    }
  }

  // ---------------------------------------------------------------------------
  // Every `&` of the output opens an entity

  predicate HasPrefix(s: string, p: string) {
    |p| <= |s| && s[..|p|] == p
  }

  predicate StartsEntity(s: string) {
    HasPrefix(s, "&amp;") || HasPrefix(s, "&lt;") || HasPrefix(s, "&gt;")
  }

  lemma {:induction false} EscapeEachEntities(s: string)
    ensures forall i :: 0 <= i < |EscapeEach(s)| && EscapeEach(s)[i] == '&' ==> StartsEntity(EscapeEach(s)[i..])
  {
    if s != [] {
      var e, rest := EscapeChar(s[0]), EscapeEach(s[1..]);
      var r := EscapeEach(s);
      assert r == e + rest;
      EscapeEachEntities(s[1..]);
      forall i | 0 <= i < |r| && r[i] == '&'
        ensures StartsEntity(r[i..])
      {
        if i < |e| {
          assert i == 0 && IsSpecial(s[0]);
          assert r[..|e|] == e;
          assert HasPrefix(r, e);
        } else {
          assert r[i..] == rest[i - |e|..];
        }
      }
    }
  }

  /** Each `&` in the output of `EscapeHtml` starts `&amp;`, `&lt;` or `&gt;`. */
  lemma EscapedAmpersandsAreEntities(s: string)
    ensures forall i :: 0 <= i < |EscapeHtml(s)| && EscapeHtml(s)[i] == '&' ==> StartsEntity(EscapeHtml(s)[i..])
  {
    EscapeHtmlIsCharwise(s);
    EscapeEachEntities(s);
  }

  // ---------------------------------------------------------------------------
  // Escaping loses nothing: it has an inverse

  function Unescape(s: string): string
    decreases |s|
  {
    if s == [] then []
    else if HasPrefix(s, "&amp;") then "&" + Unescape(s[5..])
    else if HasPrefix(s, "&lt;") then "<" + Unescape(s[4..])
    else if HasPrefix(s, "&gt;") then ">" + Unescape(s[4..])
    else [s[0]] + Unescape(s[1..])
  }

  /** Unescaping reads the escape of one character back as that character. */
  lemma UnescapeOneChar(c: char, rest: string)
    ensures Unescape(EscapeChar(c) + rest) == [c] + Unescape(rest)
  {
    var e := EscapeChar(c);
    var r := e + rest;
    assert r[..|e|] == e;
    assert r[|e|..] == rest;
    if c == '&' {
      assert HasPrefix(r, "&amp;");
    } else if c == '<' {
      assert r[1] == 'l';
      assert !HasPrefix(r, "&amp;");
      assert HasPrefix(r, "&lt;");
    } else if c == '>' {
      assert r[1] == 'g';
      assert !HasPrefix(r, "&amp;");
      assert !HasPrefix(r, "&lt;");
      assert HasPrefix(r, "&gt;");
    } else {
      assert r[0] == c;
      assert !HasPrefix(r, "&amp;");
      assert !HasPrefix(r, "&lt;");
      assert !HasPrefix(r, "&gt;");
    }
  }

  lemma {:induction false} UnescapeEscapeEach(s: string)
    ensures Unescape(EscapeEach(s)) == s
  {
    if s != [] {
      UnescapeOneChar(s[0], EscapeEach(s[1..]));
      UnescapeEscapeEach(s[1..]);
      assert s == [s[0]] + s[1..];
    }
  }

  /** `EscapeHtml` is injective: unescaping its output gives back the input. */
  lemma UnescapeEscapeHtml(s: string)
    ensures Unescape(EscapeHtml(s)) == s
  {
    EscapeHtmlIsCharwise(s);
    UnescapeEscapeEach(s);
  }
}
