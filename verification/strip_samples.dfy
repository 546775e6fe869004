/**
 * The sample inputs that accompany `stripJsonComments`, each stated for
 * every input of its shape: key and value texts and comment texts are
 * parameters, and each sample is the instance with the texts it shows.
 */
module StripSamples {
  import opened JsValues
  import opened StripComments

  /** Text that can sit between two quotes without escapes. */
  predicate PlainBody(b: string) {
    forall i :: 0 <= i < |b| ==> b[i] != '"' && b[i] != '\\'
  }

  /** `"b"`. */
  function Q(b: string): string {
    "\"" + b + "\""
  }

  /** `"k": "v"`. */
  function Entry(k: string, v: string): string {
    Q(k) + ": " + Q(v)
  }
  /** Text neither pass looks at: no quote, slash or comma. */
  predicate Inert(p: string) {
    forall i :: 0 <= i < |p| ==> p[i] != '"' && p[i] != '/' && p[i] != ','
  }

  /** Whitespace that begins with a line break, as after a line comment. */
  predicate LineBreakRun(w: string) {
    AllWhitespace(w) && w != [] && IsLineTerminator(w[0])
  }

  // ---------------------------------------------------------------------------
  // Steps shared by the samples
  // ---------------------------------------------------------------------------

  lemma QuotedIsLiteral(b: string)
    requires PlainBody(b)
    ensures IsStringLiteral(Q(b))
  {
    QuotedTextIsLiteral(b);
  }

  lemma WhitespaceIsInert(w: string)
    requires AllWhitespace(w)
    ensures Inert(w)
  {
  }

  /** Inert text passes both passes unchanged, whatever follows. */
  lemma InertStep(p: string, rest: string)
    requires Inert(p)
    ensures CommentPass(p + rest) == p + CommentPass(rest)
    ensures CommaPass(p + rest) == p + CommaPass(rest)
  {
    CommentPassCopiesPlainRun(p, rest);
    CommaPassCopiesPlainRun(p, rest);
  }

  lemma WhitespaceStep(w: string, rest: string)
    requires AllWhitespace(w)
    ensures CommentPass(w + rest) == w + CommentPass(rest)
    ensures CommaPass(w + rest) == w + CommaPass(rest)
  {
    WhitespaceIsInert(w);
    InertStep(w, rest);
  }

  /** Whitespace and a closing bracket at the end of the input pass both
      passes unchanged. */
  lemma WhitespaceCloserEnd(w: string, closer: char)
    requires AllWhitespace(w) && IsCloser(closer)
    ensures CommentPass(w + [closer]) == w + [closer]
    ensures CommaPass(w + [closer]) == w + [closer]
  {
    WhitespaceStep(w, [closer]);
    InertStep([closer], []);
    assert [closer] + [] == [closer];
  }

  /** Pass 1 deletes a line comment and keeps the line break after it. */
  lemma LineCommentStep(c: string, w: string, rest: string)
    requires IsLineComment(c) && LineBreakRun(w)
    ensures CommentPass(c + (w + rest)) == w + CommentPass(rest)
  {
    WhitespaceStep(w, rest);
    CommentPassDropsLineComment(c, w + rest);
  }

  /** Pass 2 keeps a comma whose whitespace run ends at something other than a
      closing bracket. */
  lemma KeptCommaStep(ws: string, b: string, rest: string)
    requires AllWhitespace(ws) && b != [] && !IsJsWhitespace(b[0]) && !IsCloser(b[0])
    ensures CommaPass("," + (ws + (b + rest))) == "," + CommaPass(ws + (b + rest))
  {
    var t := b + rest;
    assert t == [t[0]] + t[1..];
    CommaPassKeepsCommaBefore(ws, t[0], t[1..]);
  }

  /** The same across two whitespace runs (a comment removed between them). */
  lemma KeptCommaAcross(w1: string, w2: string, t: string)
    requires AllWhitespace(w1) && AllWhitespace(w2)
    requires t != [] && !IsJsWhitespace(t[0]) && !IsCloser(t[0])
    ensures CommaPass("," + (w1 + (w2 + t))) == "," + CommaPass(w1 + (w2 + t))
  {
    var ws := w1 + w2;
    assert w1 + (w2 + t) == ws + t;
    assert t == [t[0]] + t[1..];
    CommaPassKeepsCommaBefore(ws, t[0], t[1..]);
  }

  /** Pass 2 deletes a comma and its whitespace run, and nothing of the bracket. */
  lemma DroppedCommaStep(ws: string, closer: char, rest: string)
    requires AllWhitespace(ws) && IsCloser(closer)
    ensures CommaPass("," + (ws + ([closer] + rest))) == [closer] + CommaPass(rest)
  {
    CommaPassDropsTrailingComma(ws, closer, rest);
  }

  lemma DroppedCommaEnd(ws: string, closer: char)
    requires AllWhitespace(ws) && IsCloser(closer)
    ensures CommaPass("," + (ws + [closer])) == [closer]
  {
    DroppedCommaStep(ws, closer, []);
    assert [closer] + [] == [closer];
  }

  /** The same across two whitespace runs. */
  lemma DroppedCommaAcross(w1: string, w2: string, closer: char, rest: string)
    requires AllWhitespace(w1) && AllWhitespace(w2) && IsCloser(closer)
    ensures CommaPass("," + (w1 + (w2 + ([closer] + rest)))) == [closer] + CommaPass(rest)
  {
    var ws := w1 + w2;
    assert w1 + (w2 + ([closer] + rest)) == ws + ([closer] + rest);
    CommaPassDropsTrailingComma(ws, closer, rest);
  }

  lemma EntryShape(k: string, v: string, rest: string)
    ensures Entry(k, v) + rest == Q(k) + (": " + (Q(v) + rest))
  {
  }

  /** Pass 1 copies a `"k": "v"` entry. */
  lemma EntryCommentPass(k: string, v: string, rest: string)
    requires PlainBody(k) && PlainBody(v)
    ensures CommentPass(Entry(k, v) + rest) == Entry(k, v) + CommentPass(rest)
  {
    EntryShape(k, v, rest);
    EntryShape(k, v, CommentPass(rest));
    QuotedEntryCommentPass(k, v, rest);
  }

  lemma QuotedEntryCommentPass(k: string, v: string, rest: string)
    requires PlainBody(k) && PlainBody(v)
    ensures CommentPass(Q(k) + (": " + (Q(v) + rest))) == Q(k) + (": " + (Q(v) + CommentPass(rest)))
  {
    QuotedIsLiteral(k);
    QuotedIsLiteral(v);
    CommentPassKeepsLiteral(Q(v), rest);
    CommentPassCopiesPlainRun(": ", Q(v) + rest);
    CommentPassKeepsLiteral(Q(k), ": " + (Q(v) + rest));
  }

  /** Pass 2 copies a `"k": "v"` entry. */
  lemma EntryCommaPass(k: string, v: string, rest: string)
    requires PlainBody(k) && PlainBody(v)
    ensures CommaPass(Entry(k, v) + rest) == Entry(k, v) + CommaPass(rest)
  {
    EntryShape(k, v, rest);
    EntryShape(k, v, CommaPass(rest));
    QuotedEntryCommaPass(k, v, rest);
  }

  lemma QuotedEntryCommaPass(k: string, v: string, rest: string)
    requires PlainBody(k) && PlainBody(v)
    ensures CommaPass(Q(k) + (": " + (Q(v) + rest))) == Q(k) + (": " + (Q(v) + CommaPass(rest)))
  {
    QuotedIsLiteral(k);
    QuotedIsLiteral(v);
    CommaPassKeepsLiteral(Q(v), rest);
    CommaPassCopiesPlainRun(": ", Q(v) + rest);
    CommaPassKeepsLiteral(Q(k), ": " + (Q(v) + rest));
  }

  // ---------------------------------------------------------------------------
  // `{ "": "" }` and `{ "url": "http://example.com/foo", "pattern": "/* kept */" }`
  // ---------------------------------------------------------------------------

  /** `{ "": "" }`, and every one-entry object like it with any whitespace
      inside the braces, comes back unchanged. */
  lemma OneEntryObjectUnchanged(k: string, v: string, w0: string, w1: string)
    requires PlainBody(k) && PlainBody(v) && AllWhitespace(w0) && AllWhitespace(w1)
    ensures var s := "{" + (w0 + (Entry(k, v) + (w1 + "}")));
      StripJsonComments(Str(s)) == Str(s)
  {
    var t := Entry(k, v) + (w1 + "}");
    WhitespaceCloserEnd(w1, '}');
    EntryCommentPass(k, v, w1 + "}");
    EntryCommaPass(k, v, w1 + "}");
    WhitespaceStep(w0, t);
    InertStep("{", w0 + t);
  }

  /** Comment markers inside literals are text: the URL and the quoted comment
      of `{ "url": "http://example.com/foo", "pattern": "/* kept */" }`, and of
      every two-entry object like it, come through unchanged. */
  lemma CommentMarkersInLiteralsKept(k1: string, v1: string, k2: string, v2: string,
                                     w0: string, w1: string, w2: string)
    requires PlainBody(k1) && PlainBody(v1) && PlainBody(k2) && PlainBody(v2)
    requires AllWhitespace(w0) && AllWhitespace(w1) && AllWhitespace(w2)
    ensures var s := "{" + (w0 + (Entry(k1, v1) + ("," + (w1 + (Entry(k2, v2) + (w2 + "}"))))));
      StripJsonComments(Str(s)) == Str(s)
  {
    var t := "," + (w1 + (Entry(k2, v2) + (w2 + "}")));
    SecondEntryUnchanged(k2, v2, w1, w2);
    EntryCommentPass(k1, v1, t);
    EntryCommaPass(k1, v1, t);
    WhitespaceStep(w0, Entry(k1, v1) + t);
    InertStep("{", w0 + (Entry(k1, v1) + t));
  }

  lemma SecondEntryUnchanged(k: string, v: string, w1: string, w2: string)
    requires PlainBody(k) && PlainBody(v) && AllWhitespace(w1) && AllWhitespace(w2)
    ensures var t := "," + (w1 + (Entry(k, v) + (w2 + "}")));
      CommentPass(t) == t && CommaPass(t) == t
  {
    var r := Entry(k, v) + (w2 + "}");
    WhitespaceCloserEnd(w2, '}');
    EntryCommentPass(k, v, w2 + "}");
    EntryCommaPass(k, v, w2 + "}");
    WhitespaceStep(w1, r);
    CommentPassCopiesPlain(',', w1 + r);
    assert Entry(k, v)[0] == '"';
    KeptCommaStep(w1, Entry(k, v), w2 + "}");
  }

  // ---------------------------------------------------------------------------
  // `[ 1, 2, ]`
  // ---------------------------------------------------------------------------

  /** `[ 1, 2, ]`: the comma between elements stays, the one before the
      bracket goes with its whitespace. */
  lemma TrailingCommaInArray(a: string, b: string, w0: string, w1: string, w2: string)
    requires Inert(a) && Inert(b) && b != [] && !IsJsWhitespace(b[0]) && !IsCloser(b[0])
    requires AllWhitespace(w0) && AllWhitespace(w1) && AllWhitespace(w2)
    ensures StripJsonComments(Str("[" + (w0 + (a + ("," + (w1 + (b + ("," + (w2 + "]")))))))))
         == Str("[" + (w0 + (a + ("," + (w1 + (b + "]"))))))
  {
    ArrayCommentPass(a, b, w0, w1, w2);
    ArrayCommaPass(a, b, w0, w1, w2);
  }

  lemma ArrayCommentPass(a: string, b: string, w0: string, w1: string, w2: string)
    requires Inert(a) && Inert(b) && AllWhitespace(w0) && AllWhitespace(w1) && AllWhitespace(w2)
    ensures var s := "[" + (w0 + (a + ("," + (w1 + (b + ("," + (w2 + "]")))))));
      CommentPass(s) == s
  {
    var e := "," + (w2 + "]");
    WhitespaceCloserEnd(w2, ']');
    CommentPassCopiesPlain(',', w2 + "]");
    InertStep(b, e);
    WhitespaceStep(w1, b + e);
    CommentPassCopiesPlain(',', w1 + (b + e));
    InertStep(a, "," + (w1 + (b + e)));
    WhitespaceStep(w0, a + ("," + (w1 + (b + e))));
    InertStep("[", w0 + (a + ("," + (w1 + (b + e)))));
  }

  lemma ArrayCommaPass(a: string, b: string, w0: string, w1: string, w2: string)
    requires Inert(a) && Inert(b) && b != [] && !IsJsWhitespace(b[0]) && !IsCloser(b[0])
    requires AllWhitespace(w0) && AllWhitespace(w1) && AllWhitespace(w2)
    ensures CommaPass("[" + (w0 + (a + ("," + (w1 + (b + ("," + (w2 + "]"))))))))
         == "[" + (w0 + (a + ("," + (w1 + (b + "]")))))
  {
    var e := "," + (w2 + "]");
    DroppedCommaEnd(w2, ']');
    InertStep(b, e);
    WhitespaceStep(w1, b + e);
    KeptCommaStep(w1, b, e);
    InertStep(a, "," + (w1 + (b + e)));
    WhitespaceStep(w0, a + ("," + (w1 + (b + e))));
    InertStep("[", w0 + (a + ("," + (w1 + (b + e)))));
  }

  // ---------------------------------------------------------------------------
  // A block comment before a trailing comma
  // ---------------------------------------------------------------------------

  /** `{ "key": "value" /* comment */, }` over three lines: the comment goes in
      pass 1, and the comma it hid from the bracket goes in pass 2, with the
      whitespace up to the bracket. */
  lemma BlockCommentBeforeTrailingComma(k: string, v: string, c: string, w0: string, w1: string, w2: string)
    requires PlainBody(k) && PlainBody(v) && IsBlockComment(c)
    requires AllWhitespace(w0) && AllWhitespace(w1) && AllWhitespace(w2)
    ensures StripJsonComments(Str("{" + (w0 + (Entry(k, v) + (w1 + (c + ("," + (w2 + "}"))))))))
         == Str("{" + (w0 + (Entry(k, v) + (w1 + "}"))))
  {
    BlockCommentPass(k, v, c, w0, w1, w2);
    BlockCommaPass(k, v, w0, w1, w2);
  }

  lemma BlockCommentPass(k: string, v: string, c: string, w0: string, w1: string, w2: string)
    requires PlainBody(k) && PlainBody(v) && IsBlockComment(c)
    requires AllWhitespace(w0) && AllWhitespace(w1) && AllWhitespace(w2)
    ensures CommentPass("{" + (w0 + (Entry(k, v) + (w1 + (c + ("," + (w2 + "}")))))))
         == "{" + (w0 + (Entry(k, v) + (w1 + ("," + (w2 + "}")))))
  {
    var tail := "," + (w2 + "}");
    WhitespaceCloserEnd(w2, '}');
    CommentPassCopiesPlain(',', w2 + "}");
    CommentPassDropsBlockComment(c, tail);
    WhitespaceStep(w1, c + tail);
    WhitespaceStep(w1, tail);
    EntryCommentPass(k, v, w1 + (c + tail));
    WhitespaceStep(w0, Entry(k, v) + (w1 + (c + tail)));
    InertStep("{", w0 + (Entry(k, v) + (w1 + (c + tail))));
  }

  lemma BlockCommaPass(k: string, v: string, w0: string, w1: string, w2: string)
    requires PlainBody(k) && PlainBody(v) && AllWhitespace(w0) && AllWhitespace(w1) && AllWhitespace(w2)
    ensures CommaPass("{" + (w0 + (Entry(k, v) + (w1 + ("," + (w2 + "}"))))))
         == "{" + (w0 + (Entry(k, v) + (w1 + "}")))
  {
    var tail := "," + (w2 + "}");
    DroppedCommaEnd(w2, '}');
    WhitespaceStep(w1, tail);
    EntryCommaPass(k, v, w1 + tail);
    WhitespaceStep(w0, Entry(k, v) + (w1 + tail));
    InertStep("{", w0 + (Entry(k, v) + (w1 + tail)));
  }

  // ---------------------------------------------------------------------------
  // Line comments after commas
  // ---------------------------------------------------------------------------

  /** The nested sample: an array holding a string and an object, with a line
      comment after every comma. The comments go in pass 1; in pass 2 the comma
      after the string stays (an object follows it) while the commas after
      `true` and after the object go, each with the whitespace up to its
      bracket. */
  lemma NestedStructure(s: string, n: string, c1: string, c2: string, c3: string,
                        w0: string, w1: string, w2: string, w3: string,
                        w4: string, w5: string, w6: string, w7: string)
    requires PlainBody(s) && PlainBody(n) && IsLineComment(c1) && IsLineComment(c2) && IsLineComment(c3)
    requires AllWhitespace(w0) && AllWhitespace(w1) && AllWhitespace(w3) && AllWhitespace(w4) && AllWhitespace(w6)
    requires LineBreakRun(w2) && LineBreakRun(w5) && LineBreakRun(w7)
    ensures StripJsonComments(Str("[" + (w0 + (Q(s) + ("," + (w1 + (c1 + (w2 + ("{" + (w3 + (Q(n)
                                  + (": true" + ("," + (w4 + (c2 + (w5 + ("}" + ("," + (w6 + (c3
                                  + (w7 + "]")))))))))))))))))))))
         == Str("[" + (w0 + (Q(s) + ("," + (w1 + (w2 + ("{" + (w3 + (Q(n) + (": true" + "}]"))))))))))
  {
    var close := "}" + ("," + (w6 + (c3 + (w7 + "]"))));
    var closeKept := "}" + ("," + (w6 + (w7 + "]")));
    var t := "," + (w4 + (c2 + (w5 + close)));
    var tKept := "," + (w4 + (w5 + closeKept));
    var inner := "{" + (w3 + (Q(n) + (": true" + t)));
    var innerKept := "{" + (w3 + (Q(n) + (": true" + tKept)));
    var innerOut := "{" + (w3 + (Q(n) + (": true" + "}]")));
    var u := "," + (w1 + (c1 + (w2 + inner)));
    var uKept := "," + (w1 + (w2 + innerKept));
    NestedCloseCommentPass(c3, w6, w7);
    LineCommentAfterComma(c2, w4, w5, close);
    TrueCommentPass(t);
    QuotedHeadPasses("{", w3, n, ": true" + t);
    LineCommentAfterComma(c1, w1, w2, inner);
    QuotedHeadPasses("[", w0, s, u);
    NestedCloseCommaPass(w4, w5, w6, w7);
    TrueCommaPass(tKept);
    QuotedHeadPasses("{", w3, n, ": true" + tKept);
    ObjectAfterComma(w1, w2, innerKept);
    QuotedHeadPasses("[", w0, s, uKept);
  }

  /** An opening bracket, whitespace and a quoted text pass both passes
      unchanged. */
  lemma QuotedHeadPasses(open: string, w: string, b: string, rest: string)
    requires Inert(open) && AllWhitespace(w) && PlainBody(b)
    ensures CommentPass(open + (w + (Q(b) + rest))) == open + (w + (Q(b) + CommentPass(rest)))
    ensures CommaPass(open + (w + (Q(b) + rest))) == open + (w + (Q(b) + CommaPass(rest)))
  {
    QuotedIsLiteral(b);
    CommentPassKeepsLiteral(Q(b), rest);
    CommaPassKeepsLiteral(Q(b), rest);
    WhitespaceStep(w, Q(b) + rest);
    InertStep(open, w + (Q(b) + rest));
  }

  lemma TrueCommentPass(t: string)
    ensures CommentPass(": true" + t) == ": true" + CommentPass(t)
  {
    InertStep(": true", t);
  }

  lemma TrueCommaPass(t: string)
    ensures CommaPass(": true" + t) == ": true" + CommaPass(t)
  {
    InertStep(": true", t);
  }

  /** Pass 1 deletes a line comment after a comma and keeps the whitespace on
      both sides of it. */
  lemma LineCommentAfterComma(c: string, w1: string, w2: string, rest: string)
    requires IsLineComment(c) && AllWhitespace(w1) && LineBreakRun(w2)
    ensures CommentPass("," + (w1 + (c + (w2 + rest)))) == "," + (w1 + (w2 + CommentPass(rest)))
  {
    LineCommentStep(c, w2, rest);
    WhitespaceStep(w1, c + (w2 + rest));
    CommentPassCopiesPlain(',', w1 + (c + (w2 + rest)));
  }

  lemma NestedCloseCommentPass(c3: string, w6: string, w7: string)
    requires IsLineComment(c3) && AllWhitespace(w6) && LineBreakRun(w7)
    ensures CommentPass("}" + ("," + (w6 + (c3 + (w7 + "]"))))) == "}" + ("," + (w6 + (w7 + "]")))
  {
    WhitespaceCloserEnd(w7, ']');
    CommentPassDropsLineComment(c3, w7 + "]");
    WhitespaceStep(w6, c3 + (w7 + "]"));
    CommentPassCopiesPlain(',', w6 + (c3 + (w7 + "]")));
    InertStep("}", "," + (w6 + (c3 + (w7 + "]"))));
  }

  /** After `true`, the comma before the object's brace and the comma before
      the array's bracket both go. */
  lemma NestedCloseCommaPass(w4: string, w5: string, w6: string, w7: string)
    requires AllWhitespace(w4) && AllWhitespace(w5) && AllWhitespace(w6) && AllWhitespace(w7)
    ensures CommaPass("," + (w4 + (w5 + ("}" + ("," + (w6 + (w7 + "]"))))))) == "}]"
  {
    DroppedCommaAcross(w6, w7, ']', []);
    assert "]" + [] == "]";
    DroppedCommaAcross(w4, w5, '}', "," + (w6 + (w7 + "]")));
  }

  /** The comma before the object stays: a brace, not a closer, follows it. */
  lemma ObjectAfterComma(w1: string, w2: string, inner: string)
    requires AllWhitespace(w1) && AllWhitespace(w2) && inner != [] && inner[0] == '{'
    ensures CommaPass("," + (w1 + (w2 + inner))) == "," + (w1 + (w2 + CommaPass(inner)))
  {
    WhitespaceStep(w2, inner);
    WhitespaceStep(w1, w2 + inner);
    KeptCommaAcross(w1, w2, inner);
  }

  // ---------------------------------------------------------------------------
  // Commented-out entries before a closing bracket
  // ---------------------------------------------------------------------------

  /** The end of the button list in the first sample: a comma after the last
      live button, then three commented-out buttons, then `],` and `}` on lines
      of their own. The comments go, and with them every comma that only
      comments and whitespace separated from a bracket. */
  lemma CommentedOutButtons(c1: string, c2: string, c3: string,
                            w1: string, w2: string, w3: string, w4: string, w5: string)
    requires IsLineComment(c1) && IsLineComment(c2) && IsLineComment(c3)
    requires AllWhitespace(w1) && LineBreakRun(w2) && LineBreakRun(w3) && LineBreakRun(w4) && AllWhitespace(w5)
    ensures StripJsonComments(Str("}" + ("," + (w1 + (c1 + (w2 + (c2 + (w3 + (c3 + (w4
                                  + ("]" + ("," + (w5 + "}")))))))))))))
         == Str("}]}")
  {
    var e := "]" + ("," + (w5 + "}"));
    ButtonsEndCommentPass(w5);
    ButtonsCommentPass(c1, c2, c3, w1, w2, w3, w4, e);
    WhitespaceJoin(w2, w3);
    WhitespaceJoin(w1, w2 + w3);
    Regroup(w1, w2, w3, w4 + e);
    ButtonsCommaPass(w1 + (w2 + w3), w4, w5);
  }

  lemma ButtonsCommentPass(c1: string, c2: string, c3: string,
                           w1: string, w2: string, w3: string, w4: string, e: string)
    requires IsLineComment(c1) && IsLineComment(c2) && IsLineComment(c3)
    requires AllWhitespace(w1) && LineBreakRun(w2) && LineBreakRun(w3) && LineBreakRun(w4)
    requires CommentPass(e) == e
    ensures CommentPass("}" + ("," + (w1 + (c1 + (w2 + (c2 + (w3 + (c3 + (w4 + e)))))))))
         == "}" + ("," + (w1 + (w2 + (w3 + (w4 + e)))))
  {
    LineCommentStep(c3, w4, e);
    WhitespaceStep(w3, c3 + (w4 + e));
    LineCommentStep(c2, w3, c3 + (w4 + e));
    WhitespaceStep(w2, c2 + (w3 + (c3 + (w4 + e))));
    LineCommentStep(c1, w2, c2 + (w3 + (c3 + (w4 + e))));
    WhitespaceStep(w1, c1 + (w2 + (c2 + (w3 + (c3 + (w4 + e))))));
    CommentPassCopiesPlain(',', w1 + (c1 + (w2 + (c2 + (w3 + (c3 + (w4 + e)))))));
    InertStep("}", "," + (w1 + (c1 + (w2 + (c2 + (w3 + (c3 + (w4 + e))))))));
  }

  lemma ButtonsEndCommentPass(w5: string)
    requires AllWhitespace(w5)
    ensures var e := "]" + ("," + (w5 + "}"));
      CommentPass(e) == e
  {
    WhitespaceCloserEnd(w5, '}');
    CommentPassCopiesPlain(',', w5 + "}");
    InertStep("]", "," + (w5 + "}"));
  }

  /** Pass 2 on what pass 1 leaves: the whitespace runs that the comments
      separated are one run now, taken as `ws`. */
  lemma ButtonsCommaPass(ws: string, w4: string, w5: string)
    requires AllWhitespace(ws) && AllWhitespace(w4) && AllWhitespace(w5)
    ensures CommaPass("}" + ("," + (ws + (w4 + ("]" + ("," + (w5 + "}"))))))) == "}]}"
  {
    ButtonsCloseCommaPass(ws, w4, w5);
    InertStep("}", "," + (ws + (w4 + ("]" + ("," + (w5 + "}"))))));
  }

  lemma ButtonsCloseCommaPass(ws: string, w4: string, w5: string)
    requires AllWhitespace(ws) && AllWhitespace(w4) && AllWhitespace(w5)
    ensures CommaPass("," + (ws + (w4 + ("]" + ("," + (w5 + "}")))))) == "]}"
  {
    DroppedCommaEnd(w5, '}');
    DroppedCommaAcross(ws, w4, ']', "," + (w5 + "}"));
  }

  lemma Regroup(a: string, b: string, c: string, t: string)
    ensures a + (b + (c + t)) == (a + (b + c)) + t
  {
  }

  lemma WhitespaceJoin(w1: string, w2: string)
    requires AllWhitespace(w1) && AllWhitespace(w2)
    ensures AllWhitespace(w1 + w2)
  {
  }
}
