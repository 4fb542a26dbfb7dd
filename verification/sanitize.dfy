/**
 * The `sanitizeInput` helper of the validation middleware: strip HTML tags,
 * escape the six HTML-significant characters, then trim.
 */
module Sanitize {
  import opened Text
  import opened Wrappers
  import opened Seqs

  /** A request field as JavaScript sees it; only strings are sanitised. */
  datatype JsValue = Str(s: string) | Num(n: real) | Bool(b: bool) | Null | Undefined

  /**
   * `replace(/<[^>]*>/g, '')`: scanning left to right, each `<` that has a `>`
   * somewhere after it starts a tag running to the first such `>`, and the tag
   * is deleted; a `<` with no `>` after it is kept.
   */
  function StripTags(s: string): string
    decreases |s|
  {
    if s == [] then []
    else if s[0] == '<' && '>' in s[1..] then StripTags(s[1..][IndexOf(s[1..], '>') + 1..])
    else [s[0]] + StripTags(s[1..])
  }

  /** No `<` comes before a `>`: the string contains no tag for the pattern to match. */
  ghost predicate TagFree(s: string) {
    forall i, j :: 0 <= i < j < |s| && s[i] == '<' ==> s[j] != '>'
  }

  /** A tag-free string is left as it is. */
  lemma {:induction false} StripTagsTagFree(s: string)
    requires TagFree(s)
    ensures StripTags(s) == s
    decreases |s|
  {
    if s != [] {
      StripTagsTagFree(s[1..]);
    }
  }

  lemma StripTagsTagAtFront(inner: string, b: string)
    requires '>' !in inner
    ensures StripTags(['<'] + inner + ['>'] + b) == StripTags(b)
  {
    var s := ['<'] + inner + ['>'] + b;
    var t := s[1..];
    assert t == inner + ['>'] + b;
    assert t[|inner|] == '>';
    var k := IndexOf(t, '>');
    assert t[..|inner|] == inner;
    assert k == |inner|;
    assert t[k + 1..] == b;
  }

  /** The text before a tag is kept, the tag itself deleted, and stripping resumes after it. */
  lemma StripTagsDeletesTag(a: string, inner: string, b: string)
    requires '<' !in a
    requires '>' !in inner
    ensures StripTags(a + ['<'] + inner + ['>'] + b) == a + StripTags(b)
  {
    var tag := ['<'] + inner + ['>'] + b;
    assert a + ['<'] + inner + ['>'] + b == a + tag;
    StripTagsPrefix(a, tag);
    StripTagsTagAtFront(inner, b);
  }

  /** Text without a `<` is kept as it is, and stripping goes on after it. */
  lemma {:induction false} StripTagsPrefix(a: string, t: string)
    requires forall i :: 0 <= i < |a| ==> a[i] != '<'
    ensures StripTags(a + t) == a + StripTags(t)
    decreases |a|
  {
    if a == [] {
      assert a + t == t;
    } else {
      Cons(a, t);
      StripTagsPrefix(a[1..], t);
      StripTagsCons(a[0], a[1..] + t);
      Cons(a, StripTags(t));
    }
  }

  /** A character other than `<` is kept, and stripping goes on after it. */
  lemma StripTagsCons(c: char, t: string)
    requires c != '<'
    ensures StripTags([c] + t) == [c] + StripTags(t)
  {
    assert ([c] + t)[1..] == t;
  }

  /** Stripping only deletes: what is left is no longer than the input. */
  lemma {:induction false} StripTagsShorter(s: string)
    ensures |StripTags(s)| <= |s|
    decreases |s|
  {
    if s != [] {
      if s[0] == '<' && '>' in s[1..] {
        StripTagsShorter(s[1..][IndexOf(s[1..], '>') + 1..]);
      } else {
        StripTagsShorter(s[1..]);
      }
    }
  }

  /** Stripping brings in no character the input lacks. */
  lemma {:induction false} StripTagsAddsNothing(s: string, c: char)
    requires forall i :: 0 <= i < |s| ==> s[i] != c
    ensures forall i :: 0 <= i < |StripTags(s)| ==> StripTags(s)[i] != c
    decreases |s|
  {
    if s != [] {
      AbsentSuffix(s, 1, c);
      if s[0] == '<' && '>' in s[1..] {
        var k := IndexOf(s[1..], '>');
        AbsentSuffix(s[1..], k + 1, c);
        StripTagsAddsNothing(s[1..][k + 1..], c);
      } else {
        StripTagsAddsNothing(s[1..], c);
        AbsentConcat([s[0]], StripTags(s[1..]), c);
      }
    }
  }

  /** Whatever is left after stripping is tag-free: any `<` kept had no `>` after it. */
  lemma {:induction false} StripTagsLeavesNoTag(s: string)
    ensures TagFree(StripTags(s))
    decreases |s|
  {
    if s != [] {
      if s[0] == '<' && '>' in s[1..] {
        StripTagsLeavesNoTag(s[1..][IndexOf(s[1..], '>') + 1..]);
      } else {
        var rest := StripTags(s[1..]);
        StripTagsLeavesNoTag(s[1..]);
        if s[0] == '<' {
          StripTagsAddsNothing(s[1..], '>');
        }
        TagFreeCons(s[0], rest);
      }
    }
  }

  /** A character put in front of a tag-free string keeps it tag-free, unless it opens a tag that the string closes. */
  lemma TagFreeCons(c: char, t: string)
    requires TagFree(t)
    requires c == '<' ==> forall j :: 0 <= j < |t| ==> t[j] != '>'
    ensures TagFree([c] + t)
  {
    var r := [c] + t;
    forall i, j | 0 <= i < j < |r| && r[i] == '<'
      ensures r[j] != '>'
    {
      assert r[j] == t[j - 1];
      if i > 0 {
        assert r[i] == t[i - 1];
      }
    }
  }

  /** Stripping twice strips no more than stripping once. */
  lemma StripTagsIdempotent(s: string)
    ensures StripTags(StripTags(s)) == StripTags(s)
  {
    StripTagsLeavesNoTag(s);
    StripTagsTagFree(StripTags(s));
  }

  /** The characters the middleware escapes. */
  predicate Special(c: char) {
    c == '&' || c == '<' || c == '>' || c == '"' || c == '\'' || c == '/'
  }

  /** The entity a character becomes, or the character itself. */
  function EscapeChar(c: char): string {
    if c == '&' then "&amp;"
    else if c == '<' then "&lt;"
    else if c == '>' then "&gt;"
    else if c == '"' then "&quot;"
    else if c == '\'' then "&#x27;"
    else if c == '/' then "&#x2F;"
    else [c]
  }

  /** `s.replace(/c/g, rep)` for a single character `c`. */
  function ReplaceAll(s: string, c: char, rep: string): string {
    if s == [] then [] else (if s[0] == c then rep else [s[0]]) + ReplaceAll(s[1..], c, rep)
  }

  /** The six replacements, in the order the middleware chains them. */
  function EscapeSteps(s: string): string {
    var s1 := ReplaceAll(s, '&', "&amp;");
    var s2 := ReplaceAll(s1, '<', "&lt;");
    var s3 := ReplaceAll(s2, '>', "&gt;");
    var s4 := ReplaceAll(s3, '"', "&quot;");
    var s5 := ReplaceAll(s4, '\'', "&#x27;");
    ReplaceAll(s5, '/', "&#x2F;")
  }

  /** The escape as one pass that maps every character to its entity; no escaped character survives it. */
  function Escape(s: string): (r: string)
    ensures forall i :: 0 <= i < |r| ==> r[i] == '&' || !Special(r[i])
  {
    if s == [] then [] else EscapeChar(s[0]) + Escape(s[1..])
  }

  lemma {:induction false} ReplaceAllConcat(a: string, b: string, c: char, rep: string)
    ensures ReplaceAll(a + b, c, rep) == ReplaceAll(a, c, rep) + ReplaceAll(b, c, rep)
    decreases |a|
  {
    if a == [] {
      assert a + b == b;
    } else {
      HeadTail(a, b);
      ReplaceAllConcat(a[1..], b, c, rep);
      Assoc(if a[0] == c then rep else [a[0]], ReplaceAll(a[1..], c, rep), ReplaceAll(b, c, rep));
    }
  }

  lemma {:induction false} ReplaceAllAbsent(s: string, c: char, rep: string)
    requires forall i :: 0 <= i < |s| ==> s[i] != c
    ensures ReplaceAll(s, c, rep) == s
    decreases |s|
  {
    if s != [] {
      ReplaceAllAbsent(s[1..], c, rep);
    }
  }

  lemma EscapeStepsConcat(a: string, b: string)
    ensures EscapeSteps(a + b) == EscapeSteps(a) + EscapeSteps(b)
  {
    var a1, b1 := ReplaceAll(a, '&', "&amp;"), ReplaceAll(b, '&', "&amp;");
    ReplaceAllConcat(a, b, '&', "&amp;");
    var a2, b2 := ReplaceAll(a1, '<', "&lt;"), ReplaceAll(b1, '<', "&lt;");
    ReplaceAllConcat(a1, b1, '<', "&lt;");
    var a3, b3 := ReplaceAll(a2, '>', "&gt;"), ReplaceAll(b2, '>', "&gt;");
    ReplaceAllConcat(a2, b2, '>', "&gt;");
    var a4, b4 := ReplaceAll(a3, '"', "&quot;"), ReplaceAll(b3, '"', "&quot;");
    ReplaceAllConcat(a3, b3, '"', "&quot;");
    var a5, b5 := ReplaceAll(a4, '\'', "&#x27;"), ReplaceAll(b4, '\'', "&#x27;");
    ReplaceAllConcat(a4, b4, '\'', "&#x27;");
    ReplaceAllConcat(a5, b5, '/', "&#x2F;");
  }

  lemma ReplaceAllSingle(c: char, d: char, rep: string)
    ensures ReplaceAll([c], d, rep) == if c == d then rep else [c]
  {
    assert [c][1..] == [];
  }

  /** A character none of the six replacements touches. */
  lemma EscapeStepsPlain(c: char)
    requires !Special(c)
    ensures EscapeSteps([c]) == [c]
  {
    ReplaceAllAbsent([c], '&', "&amp;");
    ReplaceAllAbsent([c], '<', "&lt;");
    ReplaceAllAbsent([c], '>', "&gt;");
    ReplaceAllAbsent([c], '"', "&quot;");
    ReplaceAllAbsent([c], '\'', "&#x27;");
    ReplaceAllAbsent([c], '/', "&#x2F;");
  }

  /** The replacements after the first leave an entity alone. */
  lemma ReplaceKeepsEntity(e: string, c: char, rep: string)
    requires Special(c) && c != '&'
    requires forall i :: 0 <= i < |e| ==> e[i] == '&' || !Special(e[i])
    ensures ReplaceAll(e, c, rep) == e
  {
    ReplaceAllAbsent(e, c, rep);
  }

  /** The chained replacements turn one character into its entity: `&` goes first, so no entity is escaped again. */
  lemma EscapeStepsChar(c: char)
    ensures EscapeSteps([c]) == EscapeChar(c)
  {
    var e := EscapeChar(c);
    assert forall i :: 0 <= i < |e| ==> e[i] == '&' || !Special(e[i]);
    if !Special(c) {
      EscapeStepsPlain(c);
    } else {
      ReplaceKeepsEntity(e, '<', "&lt;");
      ReplaceKeepsEntity(e, '>', "&gt;");
      ReplaceKeepsEntity(e, '"', "&quot;");
      ReplaceKeepsEntity(e, '\'', "&#x27;");
      ReplaceKeepsEntity(e, '/', "&#x2F;");
      ReplaceAllSingle(c, '&', "&amp;");
      ReplaceAllSingle(c, '<', "&lt;");
      ReplaceAllSingle(c, '>', "&gt;");
      ReplaceAllSingle(c, '"', "&quot;");
      ReplaceAllSingle(c, '\'', "&#x27;");
      ReplaceAllSingle(c, '/', "&#x2F;");
    }
  }

  /** The six chained replacements are exactly the one-pass escape. */
  lemma {:induction false} EscapeStepsIsEscape(s: string)
    ensures EscapeSteps(s) == Escape(s)
    decreases |s|
  {
    if s == [] {
      assert EscapeSteps(s) == [];
    } else {
      assert s == [s[0]] + s[1..];
      EscapeStepsConcat([s[0]], s[1..]);
      EscapeStepsChar(s[0]);
      EscapeStepsIsEscape(s[1..]);
    }
  }

  lemma {:induction false} EscapeConcat(a: string, b: string)
    ensures Escape(a + b) == Escape(a) + Escape(b)
    decreases |a|
  {
    if a == [] {
      assert a + b == b;
    } else {
      HeadTail(a, b);
      EscapeConcat(a[1..], b);
      Assoc(EscapeChar(a[0]), Escape(a[1..]), Escape(b));
    }
  }

  /** Whitespace is not escaped. */
  lemma {:induction false} EscapeSpaces(s: string)
    requires AllSpace(s)
    ensures Escape(s) == s
    decreases |s|
  {
    if s != [] {
      EscapeSpaces(s[1..]);
    }
  }

  /** An escaped character starts with itself or `&` and ends with itself or `;`. */
  lemma EscapeCharEnds(c: char)
    ensures EscapeChar(c) != []
    ensures EscapeChar(c)[0] == c || EscapeChar(c)[0] == '&'
    ensures EscapeChar(c)[|EscapeChar(c)| - 1] == c || EscapeChar(c)[|EscapeChar(c)| - 1] == ';'
  {
  }

  /** A non-blank character escapes to an entity that starts and ends non-blank. */
  lemma EscapeCharNonBlank(c: char)
    requires !IsJsSpace(c)
    ensures EscapeChar(c) != [] && !IsJsSpace(EscapeChar(c)[0]) && !IsJsSpace(EscapeChar(c)[|EscapeChar(c)| - 1])
  {
    EscapeCharEnds(c);
  }

  /** Escaping keeps a string's first and last characters non-blank. */
  lemma EscapeEnds(m: string)
    requires m != [] && !IsJsSpace(m[0]) && !IsJsSpace(m[|m| - 1])
    ensures Escape(m) != [] && !IsJsSpace(Escape(m)[0]) && !IsJsSpace(Escape(m)[|Escape(m)| - 1])
  {
    EscapeCharNonBlank(m[0]);
    EscapeCharNonBlank(m[|m| - 1]);
    EscapeFirst(m);
    EscapeLast(m);
  }

  /** The escape of a non-empty string starts as the escape of its first character does. */
  lemma EscapeFirst(m: string)
    requires m != []
    ensures EscapeChar(m[0]) != [] && Escape(m)[0] == EscapeChar(m[0])[0]
  {
    EscapeCharEnds(m[0]);
  }

  /** The escape of a non-empty string ends as the escape of its last character does. */
  lemma EscapeLast(m: string)
    requires m != []
    ensures var e, l := Escape(m), EscapeChar(m[|m| - 1]);
      l != [] && e[|e| - 1] == l[|l| - 1]
  {
    EscapeCharEnds(m[|m| - 1]);
    var init := m[..|m| - 1];
    assert m == init + [m[|m| - 1]];
    EscapeConcat(init, [m[|m| - 1]]);
    assert Escape([m[|m| - 1]]) == EscapeChar(m[|m| - 1]) + Escape([]);
  }

  /** Trimming after escaping is escaping after trimming. */
  lemma TrimEscapeCommute(x: string)
    ensures Trim(Escape(x)) == Escape(Trim(x))
  {
    var p, q := TrimSplit(x);
    var m := Trim(x);
    EscapeConcat(p + m, q);
    EscapeConcat(p, m);
    EscapeSpaces(p);
    EscapeSpaces(q);
    if m != [] {
      EscapeEnds(m);
    }
    TrimFrame(p, Escape(m), q);
  }

  /** The entity `t` starts with, as the character it stands for and its length. */
  function LeadingEntity(t: string): (r: Option<(char, nat)>)
    ensures r.Some? ==> 0 < r.value.1 <= |t|
  {
    if StartsWith(t, "&amp;") then Some(('&', 5))
    else if StartsWith(t, "&lt;") then Some(('<', 4))
    else if StartsWith(t, "&gt;") then Some(('>', 4))
    else if StartsWith(t, "&quot;") then Some(('"', 6))
    else if StartsWith(t, "&#x27;") then Some(('\'', 6))
    else if StartsWith(t, "&#x2F;") then Some(('/', 6))
    else None
  }

  /** Decodes the six entities back into their characters; every other character is kept. */
  function Unescape(t: string): string
    decreases |t|
  {
    if t == [] then []
    else match LeadingEntity(t)
      case Some((c, n)) => [c] + Unescape(t[n..])
      case None => [t[0]] + Unescape(t[1..])
  }

  lemma LeadingEntityPlain(c: char, rest: string)
    requires c != '&'
    ensures LeadingEntity([c] + rest) == None
  {
    assert ([c] + rest)[0] == c;
  }

  lemma LeadingEntityAmp(rest: string)
    ensures LeadingEntity("&amp;" + rest) == Some(('&', 5))
  {
    assert ("&amp;" + rest)[..5] == "&amp;";
  }

  lemma LeadingEntityLt(rest: string)
    ensures LeadingEntity("&lt;" + rest) == Some(('<', 4))
  {
    var t := "&lt;" + rest;
    assert t[1] == 'l';
    assert t[..4] == "&lt;";
  }

  lemma LeadingEntityGt(rest: string)
    ensures LeadingEntity("&gt;" + rest) == Some(('>', 4))
  {
    var t := "&gt;" + rest;
    assert t[1] == 'g';
    assert t[..4] == "&gt;";
  }

  lemma LeadingEntityQuot(rest: string)
    ensures LeadingEntity("&quot;" + rest) == Some(('"', 6))
  {
    var t := "&quot;" + rest;
    assert t[1] == 'q';
    assert t[..6] == "&quot;";
  }

  lemma LeadingEntityApos(rest: string)
    ensures LeadingEntity("&#x27;" + rest) == Some(('\'', 6))
  {
    var t := "&#x27;" + rest;
    assert t[1] == '#';
    assert t[..6] == "&#x27;";
  }

  lemma LeadingEntitySlash(rest: string)
    ensures LeadingEntity("&#x2F;" + rest) == Some(('/', 6))
  {
    var t := "&#x2F;" + rest;
    assert t[1] == '#' && t[4] == 'F';
    assert t[..6] == "&#x2F;";
  }

  lemma UnescapeHead(c: char, rest: string)
    ensures Unescape(EscapeChar(c) + rest) == [c] + Unescape(rest)
  {
    var e := EscapeChar(c);
    var t := e + rest;
    if c == '&' {
      LeadingEntityAmp(rest);
    } else if c == '<' {
      LeadingEntityLt(rest);
    } else if c == '>' {
      LeadingEntityGt(rest);
    } else if c == '"' {
      LeadingEntityQuot(rest);
    } else if c == '\'' {
      LeadingEntityApos(rest);
    } else if c == '/' {
      LeadingEntitySlash(rest);
    } else {
      LeadingEntityPlain(c, rest);
    }
    assert t[|e|..] == rest;
  }

  /** Decoding undoes escaping: escaping loses nothing. */
  lemma {:induction false} UnescapeEscape(s: string)
    ensures Unescape(Escape(s)) == s
    decreases |s|
  {
    if s != [] {
      UnescapeHead(s[0], Escape(s[1..]));
      UnescapeEscape(s[1..]);
    }
  }

  /** One of the six entities starts at offset `i` of `t`. */
  ghost predicate EntityAt(t: string, i: int)
    requires 0 <= i <= |t|
  {
    var u := t[i..];
    StartsWith(u, "&amp;") || StartsWith(u, "&lt;") || StartsWith(u, "&gt;")
    || StartsWith(u, "&quot;") || StartsWith(u, "&#x27;") || StartsWith(u, "&#x2F;")
  }

  /** After escaping, every `&` begins an entity, because `&` itself is escaped first. */
  lemma {:induction false} EscapeAmpersands(s: string)
    ensures forall i :: 0 <= i < |Escape(s)| && Escape(s)[i] == '&' ==> EntityAt(Escape(s), i)
    decreases |s|
  {
    if s != [] {
      var h := EscapeChar(s[0]);
      var r := Escape(s[1..]);
      var e := Escape(s);
      assert e == h + r;
      EscapeAmpersands(s[1..]);
      forall i | 0 <= i < |e| && e[i] == '&'
        ensures EntityAt(e, i)
      {
        if i < |h| {
          assert Special(s[0]) && i == 0;
          assert e[..|h|] == h;
        } else {
          assert e[i..] == r[i - |h|..];
          assert EntityAt(r, i - |h|);
        }
      }
    }
  }

  /**
   * `sanitizeInput` on a string: the result holds none of the escaped
   * characters except `&` opening an entity, has no surrounding whitespace,
   * and decodes back to the tag-stripped, trimmed input.
   */
  function SanitizeString(s: string): (r: string)
    ensures r == Escape(Trim(StripTags(s)))
    ensures forall i :: 0 <= i < |r| ==> r[i] == '&' || !Special(r[i])
    ensures forall i :: 0 <= i < |r| && r[i] == '&' ==> EntityAt(r, i)
    ensures r == [] || (!IsJsSpace(r[0]) && !IsJsSpace(r[|r| - 1]))
    ensures Unescape(r) == Trim(StripTags(s))
  {
    var stripped := StripTags(s);
    EscapeStepsIsEscape(stripped);
    TrimEscapeCommute(stripped);
    EscapeAmpersands(Trim(stripped));
    UnescapeEscape(Trim(stripped));
    Trim(EscapeSteps(stripped))
  }

  /** `sanitizeInput`: strings are sanitised, every other value is returned unchanged. */
  function SanitizeInput(v: JsValue): (r: JsValue)
    ensures !v.Str? ==> r == v
    ensures v.Str? ==> r == Str(SanitizeString(v.s))
  {
    match v
    case Str(s) => Str(SanitizeString(s))
    case _ => v
  }

  /** A string without escaped characters is its own escape. */
  lemma {:induction false} EscapePlain(s: string)
    requires forall i :: 0 <= i < |s| ==> !Special(s[i])
    ensures Escape(s) == s
    decreases |s|
  {
    if s != [] {
      EscapePlain(s[1..]);
    }
  }

  /** Escaping never shortens a string, and lengthens any string holding an escaped character. */
  lemma {:induction false} EscapeLength(t: string)
    ensures |Escape(t)| >= |t|
    ensures (exists i :: 0 <= i < |t| && Special(t[i])) ==> |Escape(t)| > |t|
    decreases |t|
  {
    if t != [] {
      EscapeLength(t[1..]);
      if exists i :: 0 <= i < |t| && Special(t[i]) {
        var i :| 0 <= i < |t| && Special(t[i]);
        if i > 0 {
          assert t[1..][i - 1] == t[i];
        }
      }
    }
  }

  /** A string is its own escape exactly when it holds no escaped character. */
  lemma EscapeUnchanged(t: string)
    ensures Escape(t) == t <==> forall i :: 0 <= i < |t| ==> !Special(t[i])
  {
    EscapeLength(t);
    if forall i :: 0 <= i < |t| ==> !Special(t[i]) {
      EscapePlain(t);
    }
  }

  /** Text without tags or surrounding blanks is only escaped. */
  lemma SanitizePlainText(s: string)
    requires '<' !in s
    requires s == [] || (!IsJsSpace(s[0]) && !IsJsSpace(s[|s| - 1]))
    ensures SanitizeString(s) == Escape(s)
  {
    assert TagFree(s);
    StripTagsTagFree(s);
    TrimOfTrimmed(s);
  }

  /** A bare `&` is sanitised to its entity. */
  lemma SanitizeAmpersand()
    ensures SanitizeString("&") == "&amp;"
  {
    SanitizePlainText("&");
    assert Escape("&") == EscapeChar('&') + Escape([]);
  }

  /** The escape of the `&amp;` entity escapes its leading `&` again. */
  lemma EscapeAmpEntity()
    ensures Escape("&amp;") == "&amp;amp;"
  {
    var rest := "amp;";
    EscapePlain(rest);
    assert "&amp;" == ['&'] + rest;
    assert Escape(['&'] + rest) == EscapeChar('&') + Escape(rest);
  }

  /**
   * Sanitising is not idempotent: the `&amp;` produced from `&` is escaped
   * again by a second pass.
   */
  lemma SanitizeNotIdempotent()
    ensures SanitizeString(SanitizeString("&")) == "&amp;amp;"
  {
    SanitizeAmpersand();
    SanitizePlainText("&amp;");
    EscapeAmpEntity();
  }
}
