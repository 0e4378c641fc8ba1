/** JSON Pointer (RFC 6901): a pointer is either empty or a sequence of
    reference tokens, each introduced by '/', in which '~' is written "~0"
    and '/' is written "~1" (section 3); decoding turns "~1" into '/' and
    "~0" into '~' (section 4). Under JSON Patch (section 4.1 of RFC 6902) a
    final token "-" names the position after the last element of an array.
 */
module JsonPointer {
  import opened Wrappers

  datatype PointerError =
    | MissingLeadingSlash  // a non-empty pointer must start with '/'
    | BadEscape            // '~' not followed by '0' or '1'

  /** The end-of-array token of section 4 of RFC 6901. */
  const EndOfArray: string := "-"

  /** Escapes one reference token so that it contains no '/'. */
  function Escape(t: string): (e: string)
    ensures '/' !in e
  {
    if t == [] then []
    else
      var head := if t[0] == '~' then "~0" else if t[0] == '/' then "~1" else [t[0]];
      head + Escape(t[1..])
  }

  /** Decodes one escaped reference token. */
  function Unescape(e: string): Result<string, PointerError>
  {
    if e == [] then Success([])
    else
      var (c, n) :=
        if e[0] != '~' then (e[0], 1)
        else if |e| >= 2 && e[1] == '0' then ('~', 2)
        else if |e| >= 2 && e[1] == '1' then ('/', 2)
        else ('~', 0);
      if n == 0 then Failure(BadEscape)
      else
        match Unescape(e[n..])
        case Failure(err) => Failure(err)
        case Success(rest) => Success([c] + rest)
  }

  /** Splits a string at every '/'; the pieces contain no '/'. */
  function Split(s: string): (parts: seq<string>)
    ensures |parts| > 0
  {
    if s == [] then [[]]
    else
      var rest := Split(s[1..]);
      if s[0] == '/' then [[]] + rest
      else [[s[0]] + rest[0]] + rest[1..]
  }

  /** Decodes every escaped token, failing on the first bad one. */
  function UnescapeAll(parts: seq<string>): Result<seq<string>, PointerError>
  {
    if parts == [] then Success([])
    else
      match Unescape(parts[0])
      case Failure(err) => Failure(err)
      case Success(t) =>
        match UnescapeAll(parts[1..])
        case Failure(err) => Failure(err)
        case Success(ts) => Success([t] + ts)
  }

  /** Escapes every token. */
  function EscapeAll(tokens: seq<string>): (parts: seq<string>)
    ensures |parts| == |tokens|
  {
    if tokens == [] then [] else [Escape(tokens[0])] + EscapeAll(tokens[1..])
  }

  /** Parses a pointer into its reference tokens (sections 3 and 4 of RFC 6901). */
  function Parse(p: string): Result<seq<string>, PointerError>
  {
    if p == [] then Success([])
    else if p[0] != '/' then Failure(MissingLeadingSlash)
    else UnescapeAll(Split(p[1..]))
  }

  /** Writes reference tokens as a pointer. */
  function Render(tokens: seq<string>): (p: string)
    ensures tokens == [] <==> p == []
    ensures p != [] ==> p[0] == '/'
  {
    if tokens == [] then []
    else "/" + Escape(tokens[0]) + Render(tokens[1..])
  }

  lemma {:induction false} UnescapeEscape(t: string)
    ensures Unescape(Escape(t)) == Success(t)
  {
    if t != [] {
      var e := Escape(t);
      UnescapeEscape(t[1..]);
      if t[0] == '~' {
        assert e == "~0" + Escape(t[1..]);
        assert e[2..] == Escape(t[1..]);
      } else if t[0] == '/' {
        assert e == "~1" + Escape(t[1..]);
        assert e[2..] == Escape(t[1..]);
      } else {
        assert e == [t[0]] + Escape(t[1..]);
        assert e[1..] == Escape(t[1..]);
      }
      assert [t[0]] + t[1..] == t;
    }
  }

  /** A token without '~' or '/' is its own escaped form. */
  lemma {:induction false} EscapePlain(t: string)
    requires '~' !in t && '/' !in t
    ensures Escape(t) == t
  {
    if t != [] {
      EscapePlain(t[1..]);
      assert [t[0]] + t[1..] == t;
    }
  }

  /** Rendering a token without '~' or '/' in front of others adds it verbatim. */
  lemma RenderPlainCons(t: string, rest: seq<string>)
    requires '~' !in t && '/' !in t
    ensures Render([t] + rest) == "/" + t + Render(rest)
  {
    EscapePlain(t);
    assert ([t] + rest)[1..] == rest;
  }

  /** A string without '/' is a single piece. */
  lemma {:induction false} SplitNoSlash(a: string)
    requires '/' !in a
    ensures Split(a) == [a]
  {
    if a != [] {
      SplitNoSlash(a[1..]);
      assert [a[0]] + a[1..] == a;
    }
  }

  /** Splitting at a leading piece without '/' peels that piece off. */
  lemma {:induction false} SplitCons(a: string, b: string)
    requires '/' !in a
    ensures Split(a + "/" + b) == [a] + Split(b)
  {
    if a == [] {
      assert a + "/" + b == "/" + b;
      assert ("/" + b)[1..] == b;
    } else {
      var s := a + "/" + b;
      SplitCons(a[1..], b);
      assert s[0] == a[0] && s[1..] == a[1..] + "/" + b;
      assert [a[0]] + a[1..] == a;
    }
  }

  /** Past its leading '/', a rendered pointer is the first escaped token and the rest. */
  lemma RenderTail(tokens: seq<string>)
    requires tokens != []
    ensures Render(tokens)[1..] == Escape(tokens[0]) + Render(tokens[1..])
  {
  }

  /** A rendered pointer is empty or begins with '/'. */
  lemma RenderSlash(tokens: seq<string>)
    requires tokens != []
    ensures Render(tokens) == "/" + Render(tokens)[1..]
  {
  }

  /** The pieces of a rendered pointer (after its leading '/') are the escaped tokens. */
  lemma {:induction false} SplitRender(tokens: seq<string>)
    requires tokens != []
    ensures Split(Render(tokens)[1..]) == EscapeAll(tokens)
  {
    var rest := tokens[1..];
    var e := Escape(tokens[0]);
    RenderTail(tokens);
    if rest == [] {
      assert e + Render(rest) == e;
      SplitNoSlash(e);
    } else {
      var tail := Render(rest);
      RenderSlash(rest);
      assert e + tail == e + "/" + tail[1..];
      SplitCons(e, tail[1..]);
      SplitRender(rest);
    }
  }

  /** Decoding the escaped tokens gives the tokens back. */
  lemma {:induction false} UnescapeAllEscaped(tokens: seq<string>)
    ensures UnescapeAll(EscapeAll(tokens)) == Success(tokens)
  {
    if tokens != [] {
      var rest := tokens[1..];
      UnescapeEscape(tokens[0]);
      UnescapeAllEscaped(rest);
      assert EscapeAll(tokens)[1..] == EscapeAll(rest);
      assert [tokens[0]] + rest == tokens;
    }
  }

  /** Round trip: parsing a rendered pointer yields exactly its tokens. */
  lemma {:induction false} ParseRender(tokens: seq<string>)
    ensures Parse(Render(tokens)) == Success(tokens)
  {
    if tokens != [] {
      SplitRender(tokens);
      UnescapeAllEscaped(tokens);
    }
  }
}
