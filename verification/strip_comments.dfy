/**
 * `stripJsonComments` from monarch-app/debug_strip_comments.js: the relaxed-JSON
 * clean-up that deletes line and block comments and then trailing commas,
 * never touching the inside of a double-quoted string literal.
 *
 * Each pass is a JavaScript global regular-expression replace. Such a replace
 * scans left to right: where the pattern matches at the current position the
 * match is replaced and scanning resumes after it, otherwise one character is
 * copied. The passes below are written as exactly that scanner over the
 * remaining suffix, with the matchers spelled out as functions; the predicates
 * `IsStringLiteral`, `IsLineComment` and `IsBlockComment` restate each regular
 * expression as a grammar, and the lemmas connect the two.
 */
module StripComments {
  import opened JsValues
  import Seqs

  /** `s` begins with the two characters `a` `b`. */
  predicate OpensWith(s: string, a: char, b: char) {
    |s| >= 2 && s[0] == a && s[1] == b
  }

  predicate IsCloser(c: char) {
    c == ']' || c == '}'
  }

  // ---------------------------------------------------------------------------
  // Grammar of the three token kinds the passes recognise
  // ---------------------------------------------------------------------------

  /** `[^"\\]*(?:\\.[^"\\]*)*`: plain characters (newlines included) and
      backslash escapes of any character but a line terminator. */
  predicate LiteralBody(b: string)
    decreases |b|
  {
    || b == []
    || (b[0] != '"' && b[0] != '\\' && LiteralBody(b[1..]))
    || (|b| >= 2 && b[0] == '\\' && !IsLineTerminator(b[1]) && LiteralBody(b[2..]))
  }

  /** A complete double-quoted literal: `"` body `"`. */
  predicate IsStringLiteral(t: string) {
    |t| >= 2 && t[0] == '"' && t[|t| - 1] == '"' && LiteralBody(t[1..|t| - 1])
  }

  /** `//.*`: two slashes and the rest of the line, without its terminator. */
  predicate IsLineComment(t: string) {
    OpensWith(t, '/', '/') && forall k :: 2 <= k < |t| ==> !IsLineTerminator(t[k])
  }

  /** `/\*[\s\S]*?\*\/`: the shortest block comment, possibly over several lines. */
  predicate IsBlockComment(t: string) {
    && |t| >= 4 && OpensWith(t, '/', '*') && t[|t| - 2] == '*' && t[|t| - 1] == '/'
    && forall k :: 2 <= k < |t| - 2 ==> !(t[k] == '*' && t[k + 1] == '/')
  }

  // ---------------------------------------------------------------------------
  // Matchers
  // ---------------------------------------------------------------------------

  /** Scans a literal body from index `i`; the end index just past the closing quote. */
  function LiteralEnd(s: string, i: nat): (r: Option<nat>)
    requires i <= |s|
    ensures r.Some? ==> i < r.value <= |s|
    decreases |s| - i
  {
    if i == |s| then None
    else if s[i] == '"' then Some(i + 1)
    else if s[i] == '\\' then
      if i + 1 < |s| && !IsLineTerminator(s[i + 1]) then LiteralEnd(s, i + 2) else None
    else LiteralEnd(s, i + 1)
  }

  /** The length of the string literal that starts `s`, if one does. */
  function StringLiteralLength(s: string): (r: Option<nat>)
    ensures r.Some? ==> 2 <= r.value <= |s|
  {
    if |s| > 0 && s[0] == '"' then LiteralEnd(s, 1) else None
  }

  /** The index of the first line terminator at or after `i`, or `|s|`. */
  function LineEnd(s: string, i: nat): (r: nat)
    requires i <= |s|
    ensures i <= r <= |s|
    ensures r < |s| ==> IsLineTerminator(s[r])
    decreases |s| - i
  {
    if i == |s| || IsLineTerminator(s[i]) then i else LineEnd(s, i + 1)
  }

  /** `LineEnd` stops at the first terminator: none lies before it. */
  lemma {:induction false} LineEndIsFirst(s: string, i: nat)
    requires i <= |s|
    ensures forall k :: i <= k < LineEnd(s, i) ==> !IsLineTerminator(s[k])
    decreases |s| - i
  {
    if i < |s| && !IsLineTerminator(s[i]) {
      LineEndIsFirst(s, i + 1);
    }
  }

  /** The index just past the first `*` `/` pair starting at or after `i`. */
  function BlockEnd(s: string, i: nat): (r: Option<nat>)
    requires i <= |s|
    ensures r.Some? ==> i + 2 <= r.value <= |s|
    decreases |s| - i
  {
    if i + 1 >= |s| then None
    else if s[i] == '*' && s[i + 1] == '/' then Some(i + 2)
    else BlockEnd(s, i + 1)
  }

  /** The index of the first character at or after `i` outside `\s`, or `|s|`. */
  function WhitespaceEnd(s: string, i: nat): (r: nat)
    requires i <= |s|
    ensures i <= r <= |s|
    ensures r < |s| ==> !IsJsWhitespace(s[r])
    decreases |s| - i
  {
    if i == |s| || !IsJsWhitespace(s[i]) then i else WhitespaceEnd(s, i + 1)
  }

  /** `WhitespaceEnd` skips only whitespace. */
  lemma {:induction false} WhitespaceEndSkipsWhitespace(s: string, i: nat)
    requires i <= |s|
    ensures forall k :: i <= k < WhitespaceEnd(s, i) ==> IsJsWhitespace(s[k])
    decreases |s| - i
  {
    if i < |s| && IsJsWhitespace(s[i]) {
      WhitespaceEndSkipsWhitespace(s, i + 1);
    }
  }

  /** `,\s*(?=[\]}])` matches at the start of `s`. */
  predicate TrailingCommaAt(s: string) {
    |s| > 0 && s[0] == ',' && WhitespaceEnd(s, 1) < |s| && IsCloser(s[WhitespaceEnd(s, 1)])
  }

  // ---------------------------------------------------------------------------
  // The two passes
  // ---------------------------------------------------------------------------

  /** What a replace does at the current position: copy the next `n` characters
      (no match, or a match replaced by itself) or delete them (a match replaced
      by the empty string). */
  datatype Step = Copy(n: nat) | Delete(n: nat)

  /** One step of pass 1 on a non-empty remainder. */
  function CommentStep(s: string): (r: Step)
    requires s != []
    ensures 0 < r.n <= |s|
  {
    match StringLiteralLength(s)
    case Some(n) => Copy(n)
    case None =>
      if OpensWith(s, '/', '/') then Delete(LineEnd(s, 2))
      else if OpensWith(s, '/', '*') && BlockEnd(s, 2).Some? then Delete(BlockEnd(s, 2).value)
      else Copy(1)
  }

  /** One step of pass 2 on a non-empty remainder. */
  function CommaStep(s: string): (r: Step)
    requires s != []
    ensures 0 < r.n <= |s|
  {
    match StringLiteralLength(s)
    case Some(n) => Copy(n)
    case None => if TrailingCommaAt(s) then Delete(WhitespaceEnd(s, 1)) else Copy(1)
  }

  function Emitted(s: string, step: Step): string
    requires step.n <= |s|
  {
    if step.Copy? then s[..step.n] else []
  }

  /** Pass 1: copy literals, delete comments, copy everything else. */
  function CommentPass(s: string): string
    decreases |s|
  {
    if s == [] then []
    else
      var step := CommentStep(s);
      Emitted(s, step) + CommentPass(s[step.n..])
  }

  /** Pass 2: copy literals, delete a comma and the whitespace before a closing bracket. */
  function CommaPass(s: string): string
    decreases |s|
  {
    if s == [] then []
    else
      var step := CommaStep(s);
      Emitted(s, step) + CommaPass(s[step.n..])
  }

  /** `stripJsonComments`: a non-string argument comes back as it is; a string
      loses its comments, then its trailing commas, and nothing else. */
  function StripJsonComments(v: Value): (r: Value)
    ensures !v.Str? ==> r == v
    ensures v.Str? ==> r.Str? && Seqs.IsSubseq(r.s, v.s)
  {
    if v.Str? then
      var withoutComments := CommentPass(v.s);
      var result := CommaPass(withoutComments);
      CommentPassDeletesOnly(v.s);
      CommaPassDeletesOnly(withoutComments);
      Seqs.SubseqTrans(result, withoutComments, v.s);
      Str(result)
    else v
  }

  // ---------------------------------------------------------------------------
  // The matchers recognise exactly the grammar
  // ---------------------------------------------------------------------------

  /** A body without quotes or backslashes needs no escapes. */
  lemma {:induction false} UnescapedBody(b: string)
    requires forall i :: 0 <= i < |b| ==> b[i] != '"' && b[i] != '\\'
    ensures LiteralBody(b)
    decreases |b|
  {
    if b != [] {
      UnescapedBody(b[1..]);
    }
  }

  lemma {:induction false} LiteralEndSound(s: string, i: nat)
    requires i <= |s| && LiteralEnd(s, i).Some?
    ensures var n := LiteralEnd(s, i).value; s[n - 1] == '"' && LiteralBody(s[i..n - 1])
    decreases |s| - i
  {
    var n := LiteralEnd(s, i).value;
    if s[i] == '"' {
      assert s[i..n - 1] == [];
    } else if s[i] == '\\' {
      LiteralEndSound(s, i + 2);
      assert s[i..n - 1][2..] == s[i + 2..n - 1];
    } else {
      LiteralEndSound(s, i + 1);
      assert s[i..n - 1][1..] == s[i + 1..n - 1];
    }
  }

  lemma {:induction false} LiteralEndComplete(s: string, i: nat, n: nat)
    requires i < n <= |s| && s[n - 1] == '"' && LiteralBody(s[i..n - 1])
    ensures LiteralEnd(s, i) == Some(n)
    decreases n - i
  {
    var b := s[i..n - 1];
    if i < n - 1 {
      assert b[0] == s[i];
      if b[0] != '"' && b[0] != '\\' && LiteralBody(b[1..]) {
        assert b[1..] == s[i + 1..n - 1];
        LiteralEndComplete(s, i + 1, n);
      } else {
        assert b[1] == s[i + 1];
        assert b[2..] == s[i + 2..n - 1];
        LiteralEndComplete(s, i + 2, n);
      }
    }
  }

  /** The literal matcher succeeds with length `n` exactly when the first `n`
      characters form a complete string literal. */
  lemma StringLiteralLengthIff(s: string, n: nat)
    requires n <= |s|
    ensures StringLiteralLength(s) == Some(n) <==> IsStringLiteral(s[..n])
  {
    if StringLiteralLength(s) == Some(n) {
      LiteralEndSound(s, 1);
      assert s[..n][1..n - 1] == s[1..n - 1];
    }
    if IsStringLiteral(s[..n]) {
      assert s[..n][1..n - 1] == s[1..n - 1];
      LiteralEndComplete(s, 1, n);
    }
  }

  lemma {:induction false} BlockEndSound(s: string, i: nat)
    requires i <= |s| && BlockEnd(s, i).Some?
    ensures var n := BlockEnd(s, i).value;
      s[n - 2] == '*' && s[n - 1] == '/' && forall k :: i <= k < n - 2 ==> !(s[k] == '*' && s[k + 1] == '/')
    decreases |s| - i
  {
    if !(s[i] == '*' && s[i + 1] == '/') {
      BlockEndSound(s, i + 1);
    }
  }

  lemma {:induction false} BlockEndComplete(s: string, i: nat, n: nat)
    requires i + 2 <= n <= |s| && s[n - 2] == '*' && s[n - 1] == '/'
    requires forall k :: i <= k < n - 2 ==> !(s[k] == '*' && s[k + 1] == '/')
    ensures BlockEnd(s, i) == Some(n)
    decreases n - i
  {
    if i < n - 2 {
      BlockEndComplete(s, i + 1, n);
    }
  }

  lemma {:induction false} BlockEndNone(s: string, i: nat)
    requires i <= |s| && BlockEnd(s, i).None?
    ensures forall k :: i <= k < |s| - 1 ==> !(s[k] == '*' && s[k + 1] == '/')
    decreases |s| - i
  {
    if i + 1 < |s| {
      BlockEndNone(s, i + 1);
    }
  }

  // ---------------------------------------------------------------------------
  // Pass 1, token by token
  // ---------------------------------------------------------------------------

  /** A complete string literal is copied verbatim, whatever it contains. */
  lemma CommentPassKeepsLiteral(lit: string, rest: string)
    requires IsStringLiteral(lit)
    ensures CommentPass(lit + rest) == lit + CommentPass(rest)
  {
    var s := lit + rest;
    assert s[..|lit|] == lit;
    StringLiteralLengthIff(s, |lit|);
    assert s[|lit|..] == rest;
  }

  /** A line comment is deleted up to, not including, the line terminator. */
  lemma CommentPassDropsLineComment(c: string, rest: string)
    requires IsLineComment(c)
    requires rest == [] || IsLineTerminator(rest[0])
    ensures CommentPass(c + rest) == CommentPass(rest)
  {
    var s := c + rest;
    assert s[0] == c[0] && s[1] == c[1];
    assert s[0] == '/';
    forall k | 2 <= k < |c| ensures !IsLineTerminator(s[k]) {
      assert s[k] == c[k];
    }
    if rest != [] {
      assert s[|c|] == rest[0];
    }
    LineEndAt(s, 2, |c|);
    assert s[|c|..] == rest;
  }

  lemma {:induction false} LineEndAt(s: string, i: nat, j: nat)
    requires i <= j <= |s| && (j == |s| || IsLineTerminator(s[j]))
    requires forall k :: i <= k < j ==> !IsLineTerminator(s[k])
    ensures LineEnd(s, i) == j
    decreases j - i
  {
    if i < j {
      LineEndAt(s, i + 1, j);
    }
  }

  /** The shortest block comment is deleted, across lines. */
  lemma CommentPassDropsBlockComment(c: string, rest: string)
    requires IsBlockComment(c)
    ensures CommentPass(c + rest) == CommentPass(rest)
  {
    var s := c + rest;
    assert s[0] == c[0] && s[1] == c[1];
    assert s[0] == '/';
    forall k | 2 <= k < |c| - 2 ensures !(s[k] == '*' && s[k + 1] == '/') {
      assert s[k] == c[k] && s[k + 1] == c[k + 1];
    }
    BlockEndComplete(s, 2, |c|);
    assert s[|c|..] == rest;
  }

  /** Every other character is copied. */
  lemma CommentPassCopiesPlain(c: char, rest: string)
    requires c != '"' && c != '/'
    ensures CommentPass([c] + rest) == [c] + CommentPass(rest)
  {
    assert ([c] + rest)[1..] == rest;
    assert CommentStep([c] + rest) == Copy(1);
  }

  /** A quote that opens no complete literal is an ordinary character. */
  lemma CommentPassCopiesUnterminatedQuote(s: string)
    requires |s| > 0 && s[0] == '"'
    requires forall n :: 2 <= n <= |s| ==> !IsStringLiteral(s[..n])
    ensures CommentPass(s) == ['"'] + CommentPass(s[1..])
  {
    if StringLiteralLength(s).Some? {
      var n := StringLiteralLength(s).value;
      StringLiteralLengthIff(s, n);
    }
    assert CommentStep(s) == Copy(1);
  }

  /** A block-comment opener with no closer after it is an ordinary character. */
  lemma CommentPassCopiesUnclosedBlock(s: string)
    requires OpensWith(s, '/', '*')
    requires forall k :: 2 <= k < |s| - 1 ==> !(s[k] == '*' && s[k + 1] == '/')
    ensures CommentPass(s) == ['/'] + CommentPass(s[1..])
  {
    assert s[0] == '/' && s[1] == '*';
    BlockEndAbsent(s, 2);
  }

  lemma {:induction false} BlockEndAbsent(s: string, i: nat)
    requires i <= |s|
    requires forall k :: i <= k < |s| - 1 ==> !(s[k] == '*' && s[k + 1] == '/')
    ensures BlockEnd(s, i).None?
    decreases |s| - i
  {
    if i + 1 < |s| {
      BlockEndAbsent(s, i + 1);
    }
  }

  /** A slash that starts neither comment form is an ordinary character. */
  lemma CommentPassCopiesLoneSlash(rest: string)
    requires rest == [] || (rest[0] != '/' && rest[0] != '*')
    ensures CommentPass(['/'] + rest) == ['/'] + CommentPass(rest)
  {
    var s := ['/'] + rest;
    assert s[1..] == rest;
    assert |s| >= 2 ==> s[1] == rest[0];
    assert CommentStep(s) == Copy(1);
  }

  /** Emitting a step's output ahead of a subsequence of the remainder gives a
      subsequence of the whole input. */
  lemma EmittedKeepsSubseq(s: string, step: Step, r: string)
    requires step.n <= |s| && Seqs.IsSubseq(r, s[step.n..])
    ensures Seqs.IsSubseq(Emitted(s, step) + r, s)
  {
    var n := step.n;
    assert s[..n] + s[n..] == s;
    if step.Copy? {
      Seqs.SubseqKeepPrefix(s[..n], r, s[n..]);
    } else {
      Seqs.SubseqDropPrefix(r, s[..n], s[n..]);
      assert [] + r == r;
    }
  }

  /** Pass 1 only deletes characters. */
  lemma {:induction false} CommentPassDeletesOnly(s: string)
    ensures Seqs.IsSubseq(CommentPass(s), s)
    decreases |s|
  {
    if s != [] {
      var step := CommentStep(s);
      CommentPassDeletesOnly(s[step.n..]);
      EmittedKeepsSubseq(s, step, CommentPass(s[step.n..]));
    }
  }

  // ---------------------------------------------------------------------------
  // Pass 2, token by token
  // ---------------------------------------------------------------------------

  lemma CommaPassKeepsLiteral(lit: string, rest: string)
    requires IsStringLiteral(lit)
    ensures CommaPass(lit + rest) == lit + CommaPass(rest)
  {
    var s := lit + rest;
    assert s[..|lit|] == lit;
    StringLiteralLengthIff(s, |lit|);
    assert s[|lit|..] == rest;
  }

  /** A comma followed by whitespace and a closing bracket is deleted with the
      whitespace; the bracket stays. */
  lemma CommaPassDropsTrailingComma(ws: string, closer: char, rest: string)
    requires AllWhitespace(ws) && IsCloser(closer)
    ensures CommaPass([','] + (ws + ([closer] + rest))) == [closer] + CommaPass(rest)
  {
    var s := [','] + (ws + ([closer] + rest));
    TrailingCommaStep(ws, closer, rest);
    assert CommaPass(s) == CommaPass([closer] + rest);
    CommaPassCopiesPlain(closer, rest);
  }

  /** The step pass 2 takes at a trailing comma deletes up to the bracket. */
  lemma TrailingCommaStep(ws: string, closer: char, rest: string)
    requires AllWhitespace(ws) && IsCloser(closer)
    ensures var s := [','] + (ws + ([closer] + rest));
      CommaStep(s) == Delete(|ws| + 1) && s[|ws| + 1..] == [closer] + rest
  {
    var s := [','] + (ws + ([closer] + rest));
    assert s[|ws| + 1..] == [closer] + rest;
    forall k | 1 <= k < |ws| + 1 ensures IsJsWhitespace(s[k]) {
      assert s[k] == ws[k - 1];
    }
    WhitespaceEndAt(s, 1, |ws| + 1);
  }

  /** A comma with something other than whitespace-then-bracket after it stays. */
  lemma CommaPassKeepsOtherComma(rest: string)
    requires forall j :: 0 <= j < |rest| && AllWhitespace(rest[..j]) ==> !IsCloser(rest[j])
    ensures CommaPass([','] + rest) == [','] + CommaPass(rest)
  {
    var s := [','] + rest;
    assert s[..1] == [','] && s[1..] == rest;
    NoTrailingCommaAhead(rest);
    assert CommaStep(s) == Copy(1);
  }

  lemma NoTrailingCommaAhead(rest: string)
    requires forall j :: 0 <= j < |rest| && AllWhitespace(rest[..j]) ==> !IsCloser(rest[j])
    ensures !TrailingCommaAt([','] + rest)
  {
    var s := [','] + rest;
    var j := WhitespaceEnd(s, 1);
    WhitespaceEndSkipsWhitespace(s, 1);
    assert AllWhitespace(rest[..j - 1]) by {
      forall k | 0 <= k < j - 1 ensures IsJsWhitespace(rest[k]) {
        assert rest[k] == s[k + 1];
      }
    }
    if j < |s| {
      assert rest[j - 1] == s[j];
    }
  }

  lemma CommaPassCopiesPlain(c: char, rest: string)
    requires c != '"' && c != ','
    ensures CommaPass([c] + rest) == [c] + CommaPass(rest)
  {
    assert ([c] + rest)[1..] == rest;
    assert CommaStep([c] + rest) == Copy(1);
  }

  lemma {:induction false} WhitespaceEndAt(s: string, i: nat, j: nat)
    requires i <= j < |s| && !IsJsWhitespace(s[j])
    requires forall k :: i <= k < j ==> IsJsWhitespace(s[k])
    ensures WhitespaceEnd(s, i) == j
    decreases j - i
  {
    if i < j {
      WhitespaceEndAt(s, i + 1, j);
    }
  }

  /** Pass 2 only deletes characters. */
  lemma {:induction false} CommaPassDeletesOnly(s: string)
    ensures Seqs.IsSubseq(CommaPass(s), s)
    decreases |s|
  {
    if s != [] {
      var step := CommaStep(s);
      CommaPassDeletesOnly(s[step.n..]);
      EmittedKeepsSubseq(s, step, CommaPass(s[step.n..]));
    }
  }

  // ---------------------------------------------------------------------------
  // Runs of ordinary characters
  // ---------------------------------------------------------------------------

  /** Text with no quote and no slash passes pass 1 unchanged, whatever follows. */
  lemma {:induction false} CommentPassCopiesPlainRun(p: string, rest: string)
    requires forall i :: 0 <= i < |p| ==> p[i] != '"' && p[i] != '/'
    ensures CommentPass(p + rest) == p + CommentPass(rest)
    decreases |p|
  {
    if p == [] {
      assert p + rest == rest;
    } else {
      var c, q := p[0], p[1..];
      assert p == [c] + q;
      ConsAssoc(c, q, rest);
      CommentPassCopiesPlain(c, q + rest);
      CommentPassCopiesPlainRun(q, rest);
      ConsAssoc(c, q, CommentPass(rest));
    }
  }

  /** Text with no quote and no comma passes pass 2 unchanged, whatever follows. */
  lemma {:induction false} CommaPassCopiesPlainRun(p: string, rest: string)
    requires forall i :: 0 <= i < |p| ==> p[i] != '"' && p[i] != ','
    ensures CommaPass(p + rest) == p + CommaPass(rest)
    decreases |p|
  {
    if p == [] {
      assert p + rest == rest;
    } else {
      var c, q := p[0], p[1..];
      assert p == [c] + q;
      ConsAssoc(c, q, rest);
      CommaPassCopiesPlain(c, q + rest);
      CommaPassCopiesPlainRun(q, rest);
      ConsAssoc(c, q, CommaPass(rest));
    }
  }

  lemma ConsAssoc(c: char, q: string, t: string)
    ensures ([c] + q) + t == [c] + (q + t)
  {
  }

  /** A comma followed by whitespace and then a character that is neither
      whitespace nor a closing bracket stays. */
  lemma CommaPassKeepsCommaBefore(ws: string, c: char, rest: string)
    requires AllWhitespace(ws) && !IsJsWhitespace(c) && !IsCloser(c)
    ensures CommaPass([','] + (ws + ([c] + rest))) == [','] + CommaPass(ws + ([c] + rest))
  {
    var t := ws + ([c] + rest);
    forall j | |ws| < j <= |t| ensures !AllWhitespace(t[..j]) {
      assert t[..j][|ws|] == c;
    }
    forall j | 0 <= j < |t| && AllWhitespace(t[..j]) ensures !IsCloser(t[j]) {
      if j < |ws| {
        assert t[j] == ws[j];
      }
    }
    CommaPassKeepsOtherComma(t);
  }

  // ---------------------------------------------------------------------------
  // Whole inputs, as a sequence of tokens
  // ---------------------------------------------------------------------------

  /** Input as pass 1 sees it: ordinary text, string literals and the two comment forms. */
  datatype Piece =
    | Text(s: string)
    | Quoted(s: string)
    | LineNote(s: string)
    | BlockNote(s: string)

  predicate PieceOk(p: Piece) {
    match p
    case Text(s) => forall i :: 0 <= i < |s| ==> s[i] != '"' && s[i] != '/'
    case Quoted(s) => IsStringLiteral(s)
    case LineNote(s) => IsLineComment(s)
    case BlockNote(s) => IsBlockComment(s)
  }

  function Joined(ps: seq<Piece>): string
    decreases |ps|
  {
    if ps == [] then [] else ps[0].s + Joined(ps[1..])
  }

  /** What pass 1 keeps of one piece. */
  function KeptOf(p: Piece): string {
    if p.Text? || p.Quoted? then p.s else []
  }

  /** What survives pass 1: the text and the literals. */
  function Kept(ps: seq<Piece>): string
    decreases |ps|
  {
    if ps == [] then []
    else KeptOf(ps[0]) + Kept(ps[1..])
  }

  /** Every piece is well formed, and a line comment runs to the end of its
      line, given that `tail` follows the pieces. */
  predicate PiecesOkBefore(ps: seq<Piece>, tail: string)
    decreases |ps|
  {
    || ps == []
    || (&& PieceOk(ps[0])
        && (ps[0].LineNote? ==> var r := Joined(ps[1..]) + tail; r == [] || IsLineTerminator(r[0]))
        && PiecesOkBefore(ps[1..], tail))
  }

  predicate PiecesOk(ps: seq<Piece>) {
    PiecesOkBefore(ps, [])
  }

  /** Pass 1 deletes exactly the comments of a well-formed token sequence,
      whatever follows it. */
  lemma {:induction false} CommentPassOnPiecesBefore(ps: seq<Piece>, tail: string)
    requires PiecesOkBefore(ps, tail)
    ensures CommentPass(Joined(ps) + tail) == Kept(ps) + CommentPass(tail)
    decreases |ps|
  {
    if ps == [] {
      assert Joined(ps) + tail == tail;
    } else {
      var p, r := ps[0], Joined(ps[1..]) + tail;
      assert CommentPass(Joined(ps) + tail) == KeptOf(p) + CommentPass(r) by {
        assert PieceOk(p) && (p.LineNote? ==> r == [] || IsLineTerminator(r[0]));
        assert Joined(ps) + tail == p.s + r;
        CommentPassOnPiece(p, r);
      }
      CommentPassOnPiecesBefore(ps[1..], tail);
    }
  }

  lemma CommentPassOnPiece(p: Piece, r: string)
    requires PieceOk(p)
    requires p.LineNote? ==> r == [] || IsLineTerminator(r[0])
    ensures CommentPass(p.s + r) == KeptOf(p) + CommentPass(r)
  {
    if p.Text? || p.Quoted? {
      CommentPassOnKeptPiece(p, r);
    } else {
      CommentPassOnDroppedPiece(p, r);
      assert KeptOf(p) == [];
    }
  }

  lemma CommentPassOnKeptPiece(p: Piece, r: string)
    requires PieceOk(p) && (p.Text? || p.Quoted?)
    ensures CommentPass(p.s + r) == p.s + CommentPass(r)
  {
    if p.Text? {
      CommentPassCopiesPlainRun(p.s, r);
    } else {
      CommentPassKeepsLiteral(p.s, r);
    }
  }

  lemma CommentPassOnDroppedPiece(p: Piece, r: string)
    requires PieceOk(p) && (p.LineNote? || p.BlockNote?)
    requires p.LineNote? ==> r == [] || IsLineTerminator(r[0])
    ensures CommentPass(p.s + r) == CommentPass(r)
  {
    if p.LineNote? {
      CommentPassDropsLineComment(p.s, r);
    } else {
      CommentPassDropsBlockComment(p.s, r);
    }
  }

  /** Pass 1 on a whole well-formed input keeps exactly its text and literals. */
  lemma CommentPassOnPieces(ps: seq<Piece>)
    requires PiecesOk(ps)
    ensures CommentPass(Joined(ps)) == Kept(ps)
  {
    CommentPassOnPiecesBefore(ps, []);
    assert Joined(ps) + [] == Joined(ps);
    assert Kept(ps) + [] == Kept(ps);
  }

  /** Input as pass 2 sees it: ordinary text, string literals, and commas that
      stay or go. A dropped comma carries the whitespace deleted with it. */
  datatype CommaPiece =
    | Chars(s: string)
    | Literal(s: string)
    | KeptComma
    | DroppedComma(ws: string)

  function CommaPieceText(p: CommaPiece): string {
    match p
    case Chars(s) => s
    case Literal(s) => s
    case KeptComma => ","
    case DroppedComma(ws) => [','] + ws
  }

  function CommaJoined(ps: seq<CommaPiece>): string
    decreases |ps|
  {
    if ps == [] then [] else CommaPieceText(ps[0]) + CommaJoined(ps[1..])
  }

  /** What survives pass 2: everything but the dropped commas and their whitespace. */
  function CommaKept(ps: seq<CommaPiece>): string
    decreases |ps|
  {
    if ps == [] then []
    else (if ps[0].DroppedComma? then [] else CommaPieceText(ps[0])) + CommaKept(ps[1..])
  }

  predicate CommaPieceOk(p: CommaPiece) {
    match p
    case Chars(s) => forall i :: 0 <= i < |s| ==> s[i] != '"' && s[i] != ','
    case Literal(s) => IsStringLiteral(s)
    case KeptComma => true
    case DroppedComma(ws) => AllWhitespace(ws)
  }

  /** Every piece is well formed; a kept comma is not followed by whitespace and
      a closing bracket, and a dropped comma's whitespace reaches one. */
  predicate CommaPiecesOk(ps: seq<CommaPiece>)
    decreases |ps|
  {
    || ps == []
    || (&& CommaPieceOk(ps[0])
        && (var r := CommaJoined(ps[1..]);
            && (ps[0].KeptComma? ==> var w := WhitespaceEnd(r, 0); w < |r| && !IsCloser(r[w]))
            && (ps[0].DroppedComma? ==> r != [] && IsCloser(r[0])))
        && CommaPiecesOk(ps[1..]))
  }

  /** A comma stays when the first character after its whitespace run is there
      and is not a closing bracket. */
  lemma CommaPassKeepsCommaAhead(r: string)
    requires var w := WhitespaceEnd(r, 0); w < |r| && !IsCloser(r[w])
    ensures CommaPass([','] + r) == [','] + CommaPass(r)
  {
    var w := WhitespaceEnd(r, 0);
    WhitespaceEndSkipsWhitespace(r, 0);
    assert AllWhitespace(r[..w]) by {
      forall k | 0 <= k < w ensures IsJsWhitespace(r[..w][k]) {
        assert r[..w][k] == r[k];
      }
    }
    Seqs.SplitAt(r, w);
    CommaPassKeepsCommaBefore(r[..w], r[w], r[w + 1..]);
  }

  /** Pass 2 deletes exactly the trailing commas of a well-formed token sequence. */
  lemma {:induction false} CommaPassOnPieces(ps: seq<CommaPiece>)
    requires CommaPiecesOk(ps)
    ensures CommaPass(CommaJoined(ps)) == CommaKept(ps)
    decreases |ps|
  {
    if ps != [] {
      var p, r := ps[0], CommaJoined(ps[1..]);
      var out := if p.DroppedComma? then [] else CommaPieceText(p);
      assert CommaPass(CommaPieceText(p) + r) == out + CommaPass(r) by {
        match p
        case Chars(s) => CommaPassCopiesPlainRun(s, r);
        case Literal(s) => CommaPassKeepsLiteral(s, r);
        case KeptComma => CommaPassKeepsCommaAhead(r);
        case DroppedComma(ws) =>
          assert r == [r[0]] + r[1..];
          CommaPassDropsTrailingComma(ws, r[0], r[1..]);
          assert [','] + ws + r == [','] + (ws + r);
      }
      CommaPassOnPieces(ps[1..]);
      assert CommaKept(ps) == out + CommaKept(ps[1..]);
    }
  }

  // ---------------------------------------------------------------------------
  // Trailing commas hidden behind comments
  // ---------------------------------------------------------------------------

  /** Only whitespace and comments, as between the last element of an array or
      object and its closing bracket. */
  predicate IsGap(ps: seq<Piece>) {
    forall i :: 0 <= i < |ps| ==> (ps[i].Text? ==> AllWhitespace(ps[i].s)) && !ps[i].Quoted?
  }

  /** What pass 1 leaves of a gap is whitespace. */
  lemma {:induction false} GapLeavesWhitespace(ps: seq<Piece>)
    requires IsGap(ps)
    ensures AllWhitespace(Kept(ps))
    decreases |ps|
  {
    if ps != [] {
      assert IsGap(ps[1..]) by {
        forall i | 0 <= i < |ps[1..]| ensures (ps[1..][i].Text? ==> AllWhitespace(ps[1..][i].s)) && !ps[1..][i].Quoted? {
          assert ps[1..][i] == ps[i + 1];
        }
      }
      GapLeavesWhitespace(ps[1..]);
      var out := if ps[0].Text? then ps[0].s else [];
      assert Kept(ps) == out + Kept(ps[1..]);
      forall k | 0 <= k < |Kept(ps)| ensures IsJsWhitespace(Kept(ps)[k]) {
        if k < |out| {
          assert Kept(ps)[k] == out[k];
        } else {
          assert Kept(ps)[k] == Kept(ps[1..])[k - |out|];
        }
      }
    }
  }

  /** A trailing comma that is separated from its closing bracket by whitespace
      and comments is gone after both passes, together with the comments and
      the whitespace; the bracket and what follows it are processed as usual. */
  lemma StripDropsCommaBeforeCommentedCloser(gap: seq<Piece>, closer: char, rest: string)
    requires IsGap(gap) && PiecesOkBefore(gap, [closer] + rest) && IsCloser(closer)
    ensures CommaPass(CommentPass([','] + (Joined(gap) + ([closer] + rest))))
         == [closer] + CommaPass(CommentPass(rest))
  {
    var t := Joined(gap) + ([closer] + rest);
    var w := Kept(gap);
    var r := CommentPass(rest);
    assert CommentPass([','] + t) == [','] + (w + ([closer] + r)) by {
      CommentPassCopiesPlain(',', t);
      CommentPassOnPiecesBefore(gap, [closer] + rest);
      CommentPassCopiesPlain(closer, rest);
    }
    assert CommaPass([','] + (w + ([closer] + r))) == [closer] + CommaPass(r) by {
      GapLeavesWhitespace(gap);
      CommaPassDropsTrailingComma(w, closer, r);
    }
  }

  // ---------------------------------------------------------------------------
  // Literal contents
  // ---------------------------------------------------------------------------

  /** Quoting text that has no quote or backslash gives a complete literal. */
  lemma QuotedTextIsLiteral(body: string)
    requires forall i :: 0 <= i < |body| ==> body[i] != '"' && body[i] != '\\'
    ensures IsStringLiteral("\"" + body + "\"")
  {
    var t := "\"" + body + "\"";
    UnescapedBody(body);
    assert t[1..|t| - 1] == body;
  }

  /** Comment markers and commas inside a literal are text: both passes copy the
      literal, so a URL or a quoted comment comes through whole. */
  lemma LiteralContentsSurvive(body: string, rest: string)
    requires forall i :: 0 <= i < |body| ==> body[i] != '"' && body[i] != '\\'
    ensures var q := "\"" + body + "\"";
      && CommentPass(q + rest) == q + CommentPass(rest)
      && CommaPass(q + rest) == q + CommaPass(rest)
  {
    QuotedTextIsLiteral(body);
    CommentPassKeepsLiteral("\"" + body + "\"", rest);
    CommaPassKeepsLiteral("\"" + body + "\"", rest);
  }

  /** The empty literal `""`, key or value, is copied by both passes. */
  lemma EmptyLiteralSurvives(rest: string)
    ensures CommentPass("\"\"" + rest) == "\"\"" + CommentPass(rest)
    ensures CommaPass("\"\"" + rest) == "\"\"" + CommaPass(rest)
  {
    CommentPassKeepsLiteral("\"\"", rest);
    CommaPassKeepsLiteral("\"\"", rest);
  }

  // ---------------------------------------------------------------------------
  // Clean input
  // ---------------------------------------------------------------------------

  predicate NoComments(ps: seq<Piece>) {
    forall i :: 0 <= i < |ps| ==> ps[i].Text? || ps[i].Quoted?
  }

  predicate NoTrailingCommas(ps: seq<CommaPiece>) {
    forall i :: 0 <= i < |ps| ==> !ps[i].DroppedComma?
  }

  lemma {:induction false} KeptAllWithoutComments(ps: seq<Piece>)
    requires NoComments(ps)
    ensures Kept(ps) == Joined(ps)
    decreases |ps|
  {
    if ps != [] {
      assert NoComments(ps[1..]) by {
        forall i | 0 <= i < |ps[1..]| ensures ps[1..][i].Text? || ps[1..][i].Quoted? {
          assert ps[1..][i] == ps[i + 1];
        }
      }
      KeptAllWithoutComments(ps[1..]);
    }
  }

  lemma {:induction false} CommaKeptAllWithoutTrailing(ps: seq<CommaPiece>)
    requires NoTrailingCommas(ps)
    ensures CommaKept(ps) == CommaJoined(ps)
    decreases |ps|
  {
    if ps != [] {
      assert NoTrailingCommas(ps[1..]) by {
        forall i | 0 <= i < |ps[1..]| ensures !ps[1..][i].DroppedComma? {
          assert ps[1..][i] == ps[i + 1];
        }
      }
      CommaKeptAllWithoutTrailing(ps[1..]);
    }
  }

  /** Text that reads as literals and ordinary text with no comments, and whose
      commas are all followed by something other than a closing bracket, comes
      back from `stripJsonComments` unchanged. */
  lemma StripLeavesCleanInput(ps: seq<Piece>, cs: seq<CommaPiece>)
    requires PiecesOk(ps) && NoComments(ps)
    requires CommaPiecesOk(cs) && NoTrailingCommas(cs) && CommaJoined(cs) == Joined(ps)
    ensures StripJsonComments(Str(Joined(ps))) == Str(Joined(ps))
  {
    CommentPassOnPieces(ps);
    KeptAllWithoutComments(ps);
    CommaPassOnPieces(cs);
    CommaKeptAllWithoutTrailing(cs);
  }
}
