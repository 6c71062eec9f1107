/**
 * The string helpers of the minstache template engine bundled in
 * public/js/chirp.js: `escape`, which makes a value safe to place in HTML;
 * `assertProperty`, which guards the property names a template may read;
 * `section`, which renders a `{{#prop}}` or `{{^prop}}` block; and `parse`,
 * which cuts a template at its `{{` and `}}` delimiters.
 */
module Minstache {
  import opened Wrappers
  import opened JsValues

  // ---------------------------------------------------------------------------
  // escape

  /** `s.replace(/c/g, rep)`: every `c` replaced by `rep`. */
  function ReplaceAll(s: string, c: char, rep: string): string {
    if s == [] then []
    else (if s[0] == c then rep else [s[0]]) + ReplaceAll(s[1..], c, rep)
  }

  /** Replacing distributes over concatenation. */
  lemma {:induction false} ReplaceAllAppend(a: string, b: string, c: char, rep: string)
    ensures ReplaceAll(a + b, c, rep) == ReplaceAll(a, c, rep) + ReplaceAll(b, c, rep)
  {
    if a != [] {
      assert (a + b)[1..] == a[1..] + b;
      ReplaceAllAppend(a[1..], b, c, rep);
    } else {
      assert a + b == b;
    }
  }

  /**
   * After the replacement no `c` is left unless `rep` brings one, and a
   * character that neither the text nor `rep` contains does not appear.
   */
  lemma {:induction false} ReplaceAllChars(s: string, c: char, rep: string, d: char)
    ensures c !in rep ==> c !in ReplaceAll(s, c, rep)
    ensures d !in s && d !in rep ==> d !in ReplaceAll(s, c, rep)
    ensures c !in s ==> ReplaceAll(s, c, rep) == s
  {
    if s != [] {
      ReplaceAllChars(s[1..], c, rep, d);
      assert s == [s[0]] + s[1..];
    }
  }

  /** `escape(html)`: `&` first, then `"`, `<` and `>`, each replaced by its entity. */
  function Escape(html: string): string {
    ReplaceAll(ReplaceAll(ReplaceAll(ReplaceAll(html, '&', "&amp;"), '"', "&quot;"), '<', "&lt;"), '>', "&gt;")
  }

  /** The text `escape` puts in place of one character. */
  function EscapeChar(c: char): string {
    if c == '&' then "&amp;"
    else if c == '"' then "&quot;"
    else if c == '<' then "&lt;"
    else if c == '>' then "&gt;"
    else [c]
  }

  /** Escaping character by character. */
  function EscapeEach(s: string): string {
    if s == [] then [] else EscapeChar(s[0]) + EscapeEach(s[1..])
  }

  /**
   * Escaped output has no raw `"`, `<` or `>`: each replacement removes its
   * character, and no later entity brings one back.
   */
  lemma EscapeSafe(html: string)
    ensures '"' !in Escape(html) && '<' !in Escape(html) && '>' !in Escape(html)
  {
    var s1 := ReplaceAll(html, '&', "&amp;");
    var s2 := ReplaceAll(s1, '"', "&quot;");
    var s3 := ReplaceAll(s2, '<', "&lt;");
    ReplaceAllChars(s1, '"', "&quot;", '"');
    ReplaceAllChars(s2, '<', "&lt;", '"');
    ReplaceAllChars(s2, '<', "&lt;", '<');
    ReplaceAllChars(s3, '>', "&gt;", '"');
    ReplaceAllChars(s3, '>', "&gt;", '<');
    ReplaceAllChars(s3, '>', "&gt;", '>');
  }

  /** Escaping distributes over concatenation. */
  lemma EscapeAppend(a: string, b: string)
    ensures Escape(a + b) == Escape(a) + Escape(b)
  {
    ReplaceAllAppend(a, b, '&', "&amp;");
    var a1, b1 := ReplaceAll(a, '&', "&amp;"), ReplaceAll(b, '&', "&amp;");
    ReplaceAllAppend(a1, b1, '"', "&quot;");
    var a2, b2 := ReplaceAll(a1, '"', "&quot;"), ReplaceAll(b1, '"', "&quot;");
    ReplaceAllAppend(a2, b2, '<', "&lt;");
    var a3, b3 := ReplaceAll(a2, '<', "&lt;"), ReplaceAll(b2, '<', "&lt;");
    ReplaceAllAppend(a3, b3, '>', "&gt;");
  }

  /** Replacing in a one-character text. */
  lemma ReplaceAllOne(d: char, c: char, rep: string)
    ensures ReplaceAll([d], c, rep) == if d == c then rep else [d]
  {
    assert [d][1..] == [];
  }

  /** Replacements of characters an entity does not contain leave it alone. */
  lemma EntityStays(e: string, c: char, rep: string)
    requires c !in e
    ensures ReplaceAll(e, c, rep) == e
  {
    ReplaceAllChars(e, c, rep, c);
  }

  /** No entity contains a character that a later replacement looks for. */
  lemma EntitiesInert()
    ensures '"' !in "&amp;" && '<' !in "&amp;" && '>' !in "&amp;"
    ensures '<' !in "&quot;" && '>' !in "&quot;"
    ensures '>' !in "&lt;"
  {
  }

  /** One character escapes to its entity, or to itself when it has none. */
  lemma EscapeOne(c: char)
    ensures Escape([c]) == EscapeChar(c)
  {
    var e := EscapeChar(c);
    EntitiesInert();
    ReplaceAllOne(c, '&', "&amp;");
    if c == '&' {
      EntityStays(e, '"', "&quot;");
      EntityStays(e, '<', "&lt;");
      EntityStays(e, '>', "&gt;");
      return;
    }
    ReplaceAllOne(c, '"', "&quot;");
    if c == '"' {
      EntityStays(e, '<', "&lt;");
      EntityStays(e, '>', "&gt;");
      return;
    }
    ReplaceAllOne(c, '<', "&lt;");
    if c == '<' {
      EntityStays(e, '>', "&gt;");
      return;
    }
    ReplaceAllOne(c, '>', "&gt;");
  }

  /** The four chained replacements amount to escaping each character on its own. */
  lemma {:induction false} EscapeIsPerChar(s: string)
    ensures Escape(s) == EscapeEach(s)
  {
    if s == [] {
    } else {
      assert s == [s[0]] + s[1..];
      EscapeAppend([s[0]], s[1..]);
      EscapeOne(s[0]);
      EscapeIsPerChar(s[1..]);
    }
  }

  /** Decoding the four entities `escape` produces. */
  function Unescape(s: string): string
    decreases |s|
  {
    if s == [] then []
    else if "&amp;" <= s then ['&'] + Unescape(s[5..])
    else if "&quot;" <= s then ['"'] + Unescape(s[6..])
    else if "&lt;" <= s then ['<'] + Unescape(s[4..])
    else if "&gt;" <= s then ['>'] + Unescape(s[4..])
    else [s[0]] + Unescape(s[1..])
  }

  /** Decoding undoes one escaped character. */
  lemma UnescapeChar(c: char, rest: string)
    ensures Unescape(EscapeChar(c) + rest) == [c] + Unescape(rest)
  {
    var e := EscapeChar(c) + rest;
    if c == '&' {
      assert e[..5] == "&amp;" && e[5..] == rest;
    } else if c == '"' {
      assert e[1] == 'q' && e[..6] == "&quot;" && e[6..] == rest;
    } else if c == '<' {
      assert e[1] == 'l' && e[2] == 't' && e[..4] == "&lt;" && e[4..] == rest;
    } else if c == '>' {
      assert e[1] == 'g' && e[..4] == "&gt;" && e[4..] == rest;
    } else {
      assert e[0] == c && e[1..] == rest;
    }
  }

  /** Escaping loses nothing: decoding the entities gives the original text back. */
  lemma {:induction false} UnescapeEscape(s: string)
    ensures Unescape(Escape(s)) == s
  {
    EscapeIsPerChar(s);
    UnescapeEach(s);
  }

  lemma {:induction false} UnescapeEach(s: string)
    ensures Unescape(EscapeEach(s)) == s
  {
    if s != [] {
      UnescapeChar(s[0], EscapeEach(s[1..]));
      UnescapeEach(s[1..]);
    }
  }

  // ---------------------------------------------------------------------------
  // assertProperty

  /** A character of the class `[\w.]`: a letter, digit, `_` or `.`. */
  predicate IsPropertyChar(c: char) {
    ('a' <= c <= 'z') || ('A' <= c <= 'Z') || ('0' <= c <= '9') || c == '_' || c == '.'
  }

  /** `[\w.]*` matching the whole text, character by character. */
  function AllPropertyChars(s: string): (b: bool)
    ensures b <==> forall i :: 0 <= i < |s| ==> IsPropertyChar(s[i])
  {
    if s == [] then true
    else IsPropertyChar(s[0]) && AllPropertyChars(s[1..])
  }

  /** The error `assertProperty` throws. */
  datatype PropertyError = InvalidProperty(prop: string)

  /** `assertProperty(prop)`: throws unless the name matches `^[\w.]+$`. */
  function AssertProperty(prop: string): (r: Result<(), PropertyError>)
    ensures r.Ok? <==> |prop| > 0 && forall i :: 0 <= i < |prop| ==> IsPropertyChar(prop[i])
    ensures r.Err? ==> r.error == InvalidProperty(prop)
  {
    if prop != [] && AllPropertyChars(prop) then Ok(()) else Err(InvalidProperty(prop))
  }

  /**
   * An accepted name can be pasted into the generated code and page: it
   * has no quote, backslash, space or line break, and escaping leaves it
   * unchanged.
   */
  lemma AcceptedPropertyIsInert(prop: string)
    requires AssertProperty(prop).Ok?
    ensures '"' !in prop && '\\' !in prop && ' ' !in prop && '\n' !in prop
    ensures Escape(prop) == prop
  {
    ReplaceAllChars(prop, '&', "&amp;", '&');
    ReplaceAllChars(prop, '"', "&quot;", '"');
    ReplaceAllChars(prop, '<', "&lt;", '<');
    ReplaceAllChars(prop, '>', "&gt;", '>');
  }

  // ---------------------------------------------------------------------------
  // section

  /** A property of the render context: a function, or any other value. */
  datatype Prop = FunctionProp(id: nat) | ValueProp(v: Value)

  /** What a section renders to: the call of a function property on the block, or text. */
  datatype SectionOut = Call(id: nat, block: string) | Text(s: string)

  /** `obj[prop]`, `undefined` when missing. */
  function Lookup(obj: map<string, Prop>, prop: string): Prop {
    if prop in obj then obj[prop] else ValueProp(Undefined)
  }

  /**
   * `section(obj, prop, negate, str)`: a function property is called with
   * the block; otherwise the block is kept when the value's truthiness,
   * flipped for `{{^prop}}`, holds, and dropped otherwise.
   */
  function Section(obj: map<string, Prop>, prop: string, negate: bool, str: string): (r: SectionOut)
    ensures Lookup(obj, prop).FunctionProp? <==> r.Call?
    ensures r.Call? ==> r == Call(Lookup(obj, prop).id, str)
    ensures r.Text? ==> r.s == str || r.s == []
    ensures Lookup(obj, prop).ValueProp? ==>
      r == Text(if negate != Truthy(Lookup(obj, prop).v) then str else [])
  {
    match Lookup(obj, prop)
    case FunctionProp(id) => Call(id, str)
    case ValueProp(v) =>
      var val := if negate then !Truthy(v) else Truthy(v);
      if val then Text(str) else Text([])
  }

  /**
   * For a value property, a section keeps its block exactly when the value
   * is truthy, and an inverted section exactly when it is not: of
   * `{{#prop}}` and `{{^prop}}`, one renders the block and the other
   * renders nothing.
   */
  lemma SectionExactlyOne(obj: map<string, Prop>, prop: string, str: string)
    requires Lookup(obj, prop).ValueProp?
    ensures Section(obj, prop, false, str) == Text(str) || Section(obj, prop, false, str) == Text([])
    ensures (Section(obj, prop, false, str) == Text(str) && str != []) <==> (Truthy(Lookup(obj, prop).v) && str != [])
    ensures (Section(obj, prop, true, str) == Text(str) && str != []) <==> (!Truthy(Lookup(obj, prop).v) && str != [])
    ensures Section(obj, prop, false, str).s + Section(obj, prop, true, str).s == str
  {
  }

  // ---------------------------------------------------------------------------
  // parse

  /** A delimiter `{{` or `}}` starts at `i`. */
  predicate DelimAt(s: string, i: nat) {
    i + 2 <= |s| && (s[i..i + 2] == "{{" || s[i..i + 2] == "}}")
  }

  /** `parse(str)`: `str.split(/\{\{|\}\}/)`, the pieces between delimiters. */
  function Parse(s: string): (r: seq<string>)
    ensures |r| >= 1
  {
    if |s| < 2 then [s]
    else if DelimAt(s, 0) then [[]] + Parse(s[2..])
    else
      var rest := Parse(s[1..]);
      [[s[0]] + rest[0]] + rest[1..]
  }

  /** The delimiters `parse` cut at, in order. */
  function Delims(s: string): (r: seq<string>)
    ensures forall i :: 0 <= i < |r| ==> r[i] == "{{" || r[i] == "}}"
  {
    if |s| < 2 then []
    else if DelimAt(s, 0) then [s[..2]] + Delims(s[2..])
    else Delims(s[1..])
  }

  /** The pieces put back together with the delimiters between them. */
  function Rejoin(tokens: seq<string>, delims: seq<string>): string
    requires |tokens| == |delims| + 1
  {
    if delims == [] then tokens[0]
    else tokens[0] + delims[0] + Rejoin(tokens[1..], delims[1..])
  }

  /** Prefixing the first piece prefixes the whole. */
  lemma RejoinPrefix(x: string, tokens: seq<string>, delims: seq<string>)
    requires |tokens| == |delims| + 1
    ensures Rejoin([x + tokens[0]] + tokens[1..], delims) == x + Rejoin(tokens, delims)
  {
    var t := [x + tokens[0]] + tokens[1..];
    assert t[1..] == tokens[1..];
  }

  /**
   * `parse` loses nothing: there is one more piece than delimiters, and
   * putting the delimiters back between the pieces gives the template.
   */
  lemma {:induction false} ParseRejoin(s: string)
    ensures |Parse(s)| == |Delims(s)| + 1
    ensures Rejoin(Parse(s), Delims(s)) == s
    decreases |s|
  {
    if |s| < 2 {
    } else if DelimAt(s, 0) {
      ParseRejoin(s[2..]);
      var t := [[]] + Parse(s[2..]);
      assert t[0] == [] && t[1..] == Parse(s[2..]);
      assert s == s[..2] + s[2..];
    } else {
      ParseRejoin(s[1..]);
      RejoinPrefix([s[0]], Parse(s[1..]), Delims(s[1..]));
      assert s == [s[0]] + s[1..];
    }
  }

  /** The first piece is a prefix of the template. */
  lemma {:induction false} ParseHead(s: string)
    ensures Parse(s)[0] <= s
    decreases |s|
  {
    if |s| >= 2 && !DelimAt(s, 0) {
      ParseHead(s[1..]);
    }
  }

  /**
   * `split` cuts at the leftmost delimiter: no delimiter starts inside the
   * first piece, and unless that piece is the whole template, a delimiter
   * starts right after it and the other pieces are the split of what
   * follows that delimiter.
   */
  lemma {:induction false} ParseLeftmost(s: string)
    ensures |Parse(s)[0]| <= |s|
    ensures forall i :: 0 <= i < |Parse(s)[0]| ==> !DelimAt(s, i)
    ensures |Parse(s)[0]| == |s| ==> Parse(s) == [s] && Delims(s) == []
    ensures var k := |Parse(s)[0]|;
      k < |s| ==>
        DelimAt(s, k) && Delims(s) != [] && Delims(s)[0] == s[k..k + 2]
        && Parse(s)[1..] == Parse(s[k + 2..]) && Delims(s)[1..] == Delims(s[k + 2..])
    decreases |s|
  {
    if |s| < 2 {
    } else if DelimAt(s, 0) {
      assert s[..2] == s[0..2];
    } else {
      var t := s[1..];
      ParseLeftmost(t);
      var k' := |Parse(t)[0]|;
      forall i | 0 < i < k' + 1
        ensures !DelimAt(s, i)
      {
        DelimShift(s, i);
      }
      if k' < |t| {
        DelimShift(s, k' + 1);
        assert s[k' + 3..] == t[k' + 2..];
      } else {
        assert [s[0]] + t == s;
      }
    }
  }

  /** A delimiter at `i > 0` of a text is one at `i - 1` of its tail. */
  lemma DelimShift(s: string, i: nat)
    requires 0 < i && |s| >= 1
    ensures DelimAt(s, i) == DelimAt(s[1..], i - 1)
    ensures DelimAt(s, i) ==> s[i..i + 2] == s[1..][i - 1..i + 1]
  {
    if i + 2 <= |s| {
      assert s[i..i + 2] == s[1..][i - 1..i + 1];
    }
  }

  /** A piece with no delimiter in it. */
  predicate Clean(t: string) {
    forall i :: 0 <= i < |t| ==> !DelimAt(t, i)
  }

  /** Putting a character that starts no delimiter in front of a clean prefix of the rest keeps it clean. */
  lemma ConsClean(s: string, head: string)
    requires |s| >= 2 && !DelimAt(s, 0) && head <= s[1..] && Clean(head)
    ensures Clean([s[0]] + head)
  {
    var t := [s[0]] + head;
    forall i | 0 <= i < |t|
      ensures !DelimAt(t, i)
    {
      if i == 0 {
        if |t| >= 2 {
          assert t[..2] == s[..2];
        }
      } else if i + 2 <= |t| {
        assert t[i..i + 2] == head[i - 1..i + 1];
        assert !DelimAt(head, i - 1);
      }
    }
  }

  /** No piece contains a delimiter: `split` cut at every one. */
  lemma {:induction false} ParseClean(s: string)
    ensures forall k :: 0 <= k < |Parse(s)| ==> Clean(Parse(s)[k])
    decreases |s|
  {
    if |s| < 2 {
    } else if DelimAt(s, 0) {
      ParseClean(s[2..]);
      var t := [[]] + Parse(s[2..]);
      forall k | 0 <= k < |t|
        ensures Clean(t[k])
      {
        if k > 0 {
          assert t[k] == Parse(s[2..])[k - 1];
        }
      }
    } else {
      var rest := Parse(s[1..]);
      ParseClean(s[1..]);
      ParseHead(s[1..]);
      ConsClean(s, rest[0]);
      var t := [[s[0]] + rest[0]] + rest[1..];
      forall k | 0 <= k < |t|
        ensures Clean(t[k])
      {
        if k > 0 {
          assert t[k] == rest[k];
        }
      }
    }
  }
}
