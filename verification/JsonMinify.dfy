/** `cJSON_Minify`: white space and comments are removed in place. */
module JsonMinify {
  import opened JsonText
  import opened JsonString
  import opened JsonNumber
  import opened JsonPrinter

  /** A character that stands for itself outside literals. */
  predicate Solid(c: char) {
    !Blank(c) && c != '/' && c != '"' && c != NUL
  }

  predicate Blank(c: char) {
    c == ' ' || c == '\t' || c == '\r' || c == '\n'
  }

  /** End of a `//` comment: the line feed or the end of the text. */
  function LineEnd(s: string, i: nat): (r: nat)
    requires i <= |s|
    ensures i <= r <= |s|
    decreases |s| - i
  {
    if At(s, i) == NUL || At(s, i) == '\n' then i else LineEnd(s, i + 1)
  }

  /** Position of the next star and slash, or the end of the text. */
  function CommentEnd(s: string, i: nat): (r: nat)
    requires i <= |s|
    ensures i <= r <= |s|
    ensures At(s, r) == NUL || (At(s, r) == '*' && At(s, r + 1) == '/')
    decreases |s| - i
  {
    if At(s, i) == NUL || (At(s, i) == '*' && At(s, i + 1) == '/') then i else CommentEnd(s, i + 1)
  }

  /** Position of the quote that closes a literal whose body starts at `i`; the
      end of the text, or past it, when there is none. */
  function LiteralEnd(s: string, i: nat): (r: nat)
    ensures i <= r
    ensures r < |s| ==> AtEnd(s, r)
    decreases |s| - i
  {
    if AtEnd(s, i) then i
    else if s[i] == '\\' then LiteralEnd(s, i + 2)
    else LiteralEnd(s, i + 1)
  }

  /** The token or gap at `i` and the position after it. What is kept is the text itself. */
  function Piece(s: string, i: nat): (r: (bool, nat))
    requires At(s, i) != NUL
    ensures i < r.1
  {
    if Blank(s[i]) then (false, i + 1)
    else if s[i] == '/' && At(s, i + 1) == '/' then (false, LineEnd(s, i + 2))
    else if s[i] == '/' && At(s, i + 1) == '*' then (false, CommentEnd(s, i + 1) + 2)
    else if s[i] == '"' then (true, LiteralEnd(s, i + 1) + 1)
    else (true, i + 1)
  }

  /** Comments and literals are closed, so that the scan stays inside the text. */
  predicate Closed(s: string, i: nat)
    decreases |s| - i
  {
    At(s, i) == NUL || (Piece(s, i).1 <= |s| && Closed(s, Piece(s, i).1))
  }

  /** What is left of the text from `i` on. */
  function Minified(s: string, i: nat): string
    requires Closed(s, i)
    decreases |s| - i
  {
    if At(s, i) == NUL then ""
    else
      var (keep, next) := Piece(s, i);
      (if keep then s[i..next] else "") + Minified(s, next)
  }

  // ---------- the scan as it runs ----------

  /** The text and its terminator lie in `json`; afterwards the minified text and
      its terminator do, and the write position never passed the read position. */
  method Minify(json: array<char>, ghost s: string)
    requires |s| < json.Length && json[..|s|] == s && json[|s|] == NUL
    requires forall k | 0 <= k < |s| :: s[k] != NUL
    requires Closed(s, 0)
    modifies json
    ensures |Minified(s, 0)| <= |s|
    ensures json[..|Minified(s, 0)|] == Minified(s, 0) && json[|Minified(s, 0)|] == NUL
    ensures forall k | |Minified(s, 0)| < k < json.Length :: json[k] == old(json[k])
  {
    hide Piece;
    var p, into := 0, 0;
    while json[p] != NUL
      invariant 0 <= into <= p <= |s|
      invariant Closed(s, p) && json[..into] + Minified(s, p) == Minified(s, 0)
      invariant forall k | into <= k < json.Length :: json[k] == old(json[k])
      decreases |s| - p
    {
      assert forall k | p <= k <= |s| :: json[k] == At(s, k);
      ghost var before, piece, rest := json[..into], Kept(s, p), Minified(s, Piece(s, p).1);
      assert before + (piece + rest) == (before + piece) + rest;
      p, into := MinifyPiece(json, s, p, into);
    }
    json[into] := NUL;
    assert json[..into] + "" == json[..into];
  }

  function Kept(s: string, i: nat): string
    requires At(s, i) != NUL && Piece(s, i).1 <= |s|
  {
    if Piece(s, i).0 then s[i..Piece(s, i).1] else ""
  }

  /** The body of the loop of `cJSON_Minify`. */
  method MinifyPiece(json: array<char>, ghost s: string, start: nat, at: nat) returns (p: nat, into: nat)
    requires at <= start < |s| < json.Length && s[start] != NUL && Piece(s, start).1 <= |s|
    requires forall k | start <= k <= |s| :: json[k] == At(s, k)
    modifies json
    ensures p == Piece(s, start).1 && into == at + |Kept(s, start)| <= p
    ensures json[..into] == old(json[..at]) + Kept(s, start)
    ensures forall k | into <= k < json.Length :: json[k] == old(json[k])
  {
    assert json[start] == s[start] && json[start + 1] == At(s, start + 1);
    p, into := start, at;
    if json[p] == ' ' || json[p] == '\t' || json[p] == '\r' || json[p] == '\n' {
      p := p + 1;
    } else if json[p] == '/' && json[p + 1] == '/' {
      p := SkipLine(json, s, p);
    } else if json[p] == '/' && json[p + 1] == '*' {
      p := SkipComment(json, s, p);
    } else if json[p] == '"' {
      p, into := CopyLiteral(json, s, p, into);
    } else {
      p, into := Copy(json, p, into);
    }
  }

  /** `*into++=*json++` */
  method Copy(json: array<char>, at: nat, to: nat) returns (p: nat, into: nat)
    requires to <= at < json.Length
    modifies json
    ensures p == at + 1 && into == to + 1
    ensures json[..into] == old(json[..to]) + [old(json[at])]
    ensures forall k | into <= k < json.Length :: json[k] == old(json[k])
  {
    json[to] := json[at];
    p, into := at + 1, to + 1;
  }

  method SkipLine(json: array<char>, ghost s: string, start: nat) returns (p: nat)
    requires start + 2 <= |s| < json.Length
    requires forall k | start <= k <= |s| :: json[k] == At(s, k)
    requires At(s, start) == At(s, start + 1) == '/'
    ensures p == LineEnd(s, start + 2)
  {
    p := start;
    while json[p] != NUL && json[p] != '\n'
      invariant start <= p <= |s|
      invariant LineEnd(s, p) == LineEnd(s, start + 2)
      decreases |s| - p
    {
      p := p + 1;
    }
  }

  method SkipComment(json: array<char>, ghost s: string, start: nat) returns (p: nat)
    requires start + 1 < |s| < json.Length
    requires forall k | start <= k <= |s| :: json[k] == At(s, k)
    requires At(s, start) == '/' && CommentEnd(s, start + 1) + 2 <= |s|
    ensures p == CommentEnd(s, start + 1) + 2
  {
    p := start;
    while json[p] != NUL && !(json[p] == '*' && json[p + 1] == '/')
      invariant start <= p <= |s|
      invariant CommentEnd(s, p) == CommentEnd(s, start + 1)
      decreases |s| - p
    {
      p := p + 1;
    }
    p := p + 2;
  }

  method CopyLiteral(json: array<char>, ghost s: string, start: nat, at: nat) returns (p: nat, into: nat)
    requires at <= start < |s| < json.Length
    requires forall k | start <= k <= |s| :: json[k] == At(s, k)
    requires s[start] == '"' && LiteralEnd(s, start + 1) < |s|
    modifies json
    ensures p == LiteralEnd(s, start + 1) + 1 && into == at + (p - start) <= p
    ensures json[..into] == old(json[..at]) + s[start..p]
    ensures forall k | into <= k < json.Length :: json[k] == old(json[k])
  {
    hide LiteralEnd;
    ghost var before := json[..at];
    LiteralStays(s, start + 1);
    assert json[start] == At(s, start) && s[start..start + 1] == [s[start]];
    p, into := Copy(json, start, at);
    while json[p] != NUL && json[p] != '"'
      invariant start < p < |s| && into == at + (p - start)
      invariant LiteralEnd(s, p) == LiteralEnd(s, start + 1)
      invariant json[..into] == before + s[start..p]
      invariant forall k | into <= k < json.Length :: json[k] == old(json[k])
      decreases |s| - p
    {
      assert json[p] == At(s, p) && json[p + 1] == At(s, p + 1);
      ghost var next := LiteralStep(s, p);
      Longer(before, s, start, p, next);
      p, into := CopyCharacter(json, s, p, into);
    }
    assert json[p] == At(s, p);
    LiteralStays(s, p);
    Longer(before, s, start, p, p + 1);
    p, into := Copy(json, p, into);
  }

  lemma Longer(before: string, s: string, a: nat, b: nat, c: nat)
    requires a <= b <= c <= |s|
    ensures before + s[a..b] + s[b..c] == before + s[a..c]
    ensures c == b + 1 ==> s[b..c] == [s[b]]
  {
  }

  lemma LiteralStays(s: string, i: nat)
    ensures AtEnd(s, i) ==> LiteralEnd(s, i) == i
  {
  }

  lemma LiteralStep(s: string, i: nat) returns (next: nat)
    requires !AtEnd(s, i) && LiteralEnd(s, i) < |s|
    ensures next == (if s[i] == '\\' then i + 2 else i + 1) < |s| && LiteralEnd(s, next) == LiteralEnd(s, i)
  {
    next := if s[i] == '\\' then i + 2 else i + 1;
  }

  /** One character of a literal, with the backslash before it. */
  method CopyCharacter(json: array<char>, ghost s: string, at: nat, to: nat) returns (p: nat, into: nat)
    requires to <= at < |s| < json.Length
    requires json[at] == s[at] && json[at + 1] == At(s, at + 1)
    requires s[at] == '\\' ==> at + 2 <= |s|
    modifies json
    ensures p == (if s[at] == '\\' then at + 2 else at + 1) && into == to + (p - at)
    ensures json[..into] == old(json[..to]) + s[at..p]
    ensures forall k | into <= k < json.Length :: json[k] == old(json[k])
  {
    p, into := at, to;
    if json[p] == '\\' {
      p, into := Copy(json, p, into);
    }
    p, into := Copy(json, p, into);
  }
}
