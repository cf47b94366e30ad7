/** What minifying does to comments, said of a text as a sequence of segments: blanks and
    comments go, literals and all other characters stay as they are. */
module JsonSegments {
  import opened JsonText
  import opened JsonString
  import opened JsonParser
  import opened JsonMinify
  import opened JsonMeaning

  /** A line comment runs up to its line feed. A block comment is a slash, a body that is
      empty or starts with a star, and a star and a slash: its first star may be the closing
      one too. */
  datatype Segment =
    | Gap(c: char)
    | LineComment(body: string)
    | BlockComment(body: string)
    | Literal(body: string)
    | Other(c: char)

  function Text(g: Segment): string {
    match g
    case Gap(c) => [c]
    case LineComment(body) => "//" + body + "\n"
    case BlockComment(body) => "/" + body + "*/"
    case Literal(body) => "\"" + body + "\""
    case Other(c) => [c]
  }

  /** What stays of a segment. */
  function Left(g: Segment): string {
    match g
    case Literal(body) => "\"" + body + "\""
    case Other(c) => [c]
    case _ => ""
  }

  function Texts(gs: seq<Segment>): string {
    if |gs| == 0 then "" else Text(gs[0]) + Texts(gs[1..])
  }

  function LeftOver(gs: seq<Segment>): string {
    if |gs| == 0 then "" else Left(gs[0]) + LeftOver(gs[1..])
  }

  predicate OneLine(body: string) {
    forall k | 0 <= k < |body| :: body[k] != '\n' && body[k] != NUL
  }

  /** No star with a slash behind it. */
  predicate Unclosed(body: string) {
    forall k | 0 <= k < |body| - 1 :: !(body[k] == '*' && body[k + 1] == '/')
  }

  /** Backslashes come with the character behind them; no other quote is inside. */
  predicate Escaped(body: string) {
    |body| == 0
    || if body[0] == '\\' then |body| > 1 && Escaped(body[2..]) else body[0] != '"' && Escaped(body[1..])
  }

  /** A segment and the text behind it. */
  predicate Formed(g: Segment, rest: string) {
    match g
    case Gap(c) => c in " \t\r\n"
    case LineComment(body) => OneLine(body)
    case BlockComment(body) => (|body| > 0 ==> body[0] == '*') && Unclosed(body) && NulFree(body)
    case Literal(body) => Escaped(body) && NulFree(body)
    case Other(c) => !Blank(c) && c != '"' && c != NUL && (c == '/' ==> At(rest, 0) != '/' && At(rest, 0) != '*')
  }

  predicate AllFormed(gs: seq<Segment>, tail: string) {
    |gs| > 0 ==> Formed(gs[0], Texts(gs[1..]) + tail) && AllFormed(gs[1..], tail)
  }

  /** A line comment at the end of the text needs no line feed. */
  predicate IsTail(tail: string) {
    |tail| > 0 ==> |tail| >= 2 && tail[0] == '/' && tail[1] == '/' && OneLine(tail)
  }

  // ---------- where a segment ends ----------

  lemma Front(s: string, i: nat, a: string, b: string)
    requires i <= |s| && s[i..] == a + b
    ensures i + |a| <= |s| && s[i..i + |a|] == a && s[i + |a|..] == b
    ensures forall k | 0 <= k < |a| :: At(s, i + k) == a[k]
    ensures forall k | 0 <= k <= |b| :: At(s, i + |a| + k) == At(b, k)
  {
    var t := s[i..];
    assert |t| == |s| - i;
    assert s[i..i + |a|] == t[..|a|] && s[i + |a|..] == t[|a|..];
    assert forall k | 0 <= k < |t| :: s[i + k] == t[k];
  }

  lemma {:induction false} LineEndIs(s: string, i: nat, body: string, rest: string)
    requires i <= |s| && s[i..] == body + rest && OneLine(body) && (At(rest, 0) == NUL || At(rest, 0) == '\n')
    ensures LineEnd(s, i) == i + |body|
    decreases |body|
  {
    if |body| == 0 {
      Front(s, i, body, rest);
    } else {
      assert body + rest == body[..1] + (body[1..] + rest);
      Front(s, i, body[..1], body[1..] + rest);
      LineEndIs(s, i + 1, body[1..], rest);
    }
  }

  lemma {:induction false} CommentEndIs(s: string, i: nat, body: string, rest: string)
    requires i <= |s| && s[i..] == body + ("*/" + rest) && Unclosed(body) && NulFree(body)
    ensures CommentEnd(s, i) == i + |body|
    decreases |body|
  {
    Front(s, i, body, "*/" + rest);
    if |body| > 0 {
      assert At(s, i + 1) == if |body| > 1 then body[1] else '*';
      assert body + ("*/" + rest) == body[..1] + (body[1..] + ("*/" + rest));
      Front(s, i, body[..1], body[1..] + ("*/" + rest));
      CommentEndIs(s, i + 1, body[1..], rest);
    }
  }

  lemma {:induction false} LiteralEndIs(s: string, i: nat, body: string, rest: string)
    requires i <= |s| && s[i..] == body + ("\"" + rest) && Escaped(body) && NulFree(body)
    ensures LiteralEnd(s, i) == i + |body|
    decreases |body|
  {
    Front(s, i, body, "\"" + rest);
    if |body| > 0 {
      var n := if body[0] == '\\' then 2 else 1;
      assert body + ("\"" + rest) == body[..n] + (body[n..] + ("\"" + rest));
      Front(s, i, body[..n], body[n..] + ("\"" + rest));
      LiteralEndIs(s, i + n, body[n..], rest);
    }
  }

  // ---------- minifying segments ----------

  /** One segment: what is left of it, and the text goes on behind it. */
  lemma SegmentStep(s: string, i: nat, g: Segment, rest: string)
    requires i <= |s| && s[i..] == Text(g) + rest && Formed(g, rest)
    ensures var next := i + |Text(g)|;
            next <= |s| && s[next..] == rest
            && (Closed(s, next) ==> Closed(s, i) && Minified(s, i) == Left(g) + Minified(s, next))
  {
    hide Escaped, Unclosed, OneLine, NulFree, Piece, Minified, Closed;
    Front(s, i, Text(g), rest);
    match g
    case Gap(c) => GapStep(s, i, c, rest);
    case LineComment(body) => LineStep(s, i, body, rest);
    case BlockComment(body) => BlockStep(s, i, body, rest);
    case Literal(body) => LiteralStep(s, i, body, rest);
    case Other(c) => OtherStep(s, i, c, rest);
  }

  /** A piece is kept or dropped, and the text goes on behind it. */
  lemma PieceStep(s: string, i: nat)
    requires At(s, i) != NUL && Piece(s, i).1 <= |s|
    ensures var (keep, next) := Piece(s, i);
            Closed(s, next) ==> Closed(s, i) && Minified(s, i) == (if keep then s[i..next] else "") + Minified(s, next)
  {
    hide Piece;
  }

  lemma GapStep(s: string, i: nat, c: char, rest: string)
    requires i <= |s| && s[i..] == [c] + rest && Blank(c)
    ensures Closed(s, i + 1) ==> Closed(s, i) && Minified(s, i) == Minified(s, i + 1)
  {
    Front(s, i, [c], rest);
    assert At(s, i) == [c][0];
  }

  lemma OtherStep(s: string, i: nat, c: char, rest: string)
    requires i <= |s| && s[i..] == [c] + rest && Formed(Other(c), rest)
    ensures Closed(s, i + 1) ==> Closed(s, i) && Minified(s, i) == [c] + Minified(s, i + 1)
  {
    Front(s, i, [c], rest);
    assert At(s, i) == [c][0] && At(s, i + 1) == At(rest, 0);
  }

  lemma LineStep(s: string, i: nat, body: string, rest: string)
    requires i <= |s| && s[i..] == "//" + body + "\n" + rest && OneLine(body)
    ensures var next := i + |body| + 3; Closed(s, next) ==> Closed(s, i) && Minified(s, i) == Minified(s, next)
  {
    hide LineEnd;
    assert "//" + body + "\n" + rest == "//" + (body + ("\n" + rest));
    Front(s, i, "//", body + ("\n" + rest));
    assert At(s, i) == "//"[0] && At(s, i + 1) == "//"[1];
    LineEndIs(s, i + 2, body, "\n" + rest);
    Front(s, i + 2, body, "\n" + rest);
    var e := i + 2 + |body|;
    assert At(s, e) == '\n' && Piece(s, i) == (false, e) && Piece(s, e) == (false, e + 1);
  }

  lemma BlockStep(s: string, i: nat, body: string, rest: string)
    requires i <= |s| && s[i..] == "/" + body + "*/" + rest && Formed(BlockComment(body), rest)
    ensures var next := i + |body| + 3; Closed(s, next) ==> Closed(s, i) && Minified(s, i) == Minified(s, next)
  {
    hide CommentEnd, Unclosed, NulFree, Closed, Minified, LineEnd, LiteralEnd;
    assert "/" + body + "*/" + rest == "/" + (body + ("*/" + rest));
    Front(s, i, "/", body + ("*/" + rest));
    Front(s, i + 1, body, "*/" + rest);
    assert At(s, i) == "/"[0] && At(s, i + 1) == '*';
    CommentEndIs(s, i + 1, body, rest);
    assert Piece(s, i) == (false, i + |body| + 3);
    PieceStep(s, i);
  }

  lemma LiteralStep(s: string, i: nat, body: string, rest: string)
    requires i <= |s| && s[i..] == "\"" + body + "\"" + rest && Formed(Literal(body), rest)
    ensures var next := i + |body| + 2; Closed(s, next) ==> Closed(s, i) && Minified(s, i) == "\"" + body + "\"" + Minified(s, next)
  {
    hide LiteralEnd, Escaped, NulFree, Closed, Minified, LineEnd, CommentEnd;
    assert "\"" + body + "\"" + rest == "\"" + (body + ("\"" + rest));
    Front(s, i, "\"", body + ("\"" + rest));
    LiteralEndIs(s, i + 1, body, rest);
    Front(s, i, "\"" + body + "\"", rest);
    assert At(s, i) == '"' && Piece(s, i) == (true, i + |body| + 2);
    PieceStep(s, i);
  }

  lemma {:induction false} MinifiedFrom(s: string, i: nat, gs: seq<Segment>, tail: string)
    requires i <= |s| && s[i..] == Texts(gs) + tail && AllFormed(gs, tail) && IsTail(tail)
    ensures Closed(s, i) && Minified(s, i) == LeftOver(gs)
    decreases |gs|
  {
    hide Piece, Formed, Text, Left, Closed, Minified, IsTail;
    if |gs| == 0 {
      assert s[i..] == tail;
      TailStep(s, i, tail);
    } else {
      var rest := Texts(gs[1..]) + tail;
      assert s[i..] == Text(gs[0]) + rest;
      SegmentStep(s, i, gs[0], rest);
      MinifiedFrom(s, i + |Text(gs[0])|, gs[1..], tail);
    }
  }

  lemma TailStep(s: string, i: nat, tail: string)
    requires i <= |s| && s[i..] == tail && IsTail(tail)
    ensures Closed(s, i) && Minified(s, i) == ""
  {
    if |tail| > 0 {
      assert tail == tail[..2] + (tail[2..] + "");
      Front(s, i, tail[..2], tail[2..] + "");
      assert At(s, i) == '/' && At(s, i + 1) == '/';
      LineEndIs(s, i + 2, tail[2..], "");
      assert Piece(s, i) == (false, |s|) && At(s, |s|) == NUL;
    }
  }

  /** Minifying takes out blanks and comments, and nothing else. */
  lemma CommentsRemoved(gs: seq<Segment>, tail: string)
    requires AllFormed(gs, tail) && IsTail(tail)
    ensures var s := Texts(gs) + tail; Closed(s, 0) && Minified(s, 0) == LeftOver(gs)
  {
    hide AllFormed, IsTail, Minified, Closed;
    var s := Texts(gs) + tail;
    assert s[0..] == s;
    MinifiedFrom(s, 0, gs, tail);
  }

  // ---------- every text has its segments ----------

  lemma {:induction false} LineOf(s: string, i: nat)
    requires i <= |s| && NulFree(s)
    ensures OneLine(s[i..LineEnd(s, i)]) && (LineEnd(s, i) < |s| ==> s[LineEnd(s, i)] == '\n')
    decreases |s| - i
  {
    var e := LineEnd(s, i);
    if i < e {
      LineOf(s, i + 1);
      assert s[i..e] == [s[i]] + s[i + 1..e];
    }
  }

  lemma {:induction false} CommentOf(s: string, i: nat)
    requires i <= |s| && NulFree(s) && CommentEnd(s, i) + 2 <= |s|
    ensures var e := CommentEnd(s, i); Unclosed(s[i..e]) && s[e..e + 2] == "*/"
    decreases |s| - i
  {
    var e := CommentEnd(s, i);
    if i < e {
      CommentOf(s, i + 1);
      assert s[i..e] == [s[i]] + s[i + 1..e];
    }
  }

  lemma {:induction false} LiteralOf(s: string, i: nat)
    requires NulFree(s) && LiteralEnd(s, i) < |s|
    ensures Escaped(s[i..LiteralEnd(s, i)]) && s[LiteralEnd(s, i)] == '"'
    decreases |s| - i
  {
    var e := LiteralEnd(s, i);
    if i < e {
      var n := if s[i] == '\\' then 2 else 1;
      LiteralOf(s, i + n);
      assert s[i..e][n..] == s[i + n..e];
    }
  }

  /** The text from a position on starts with a segment, or is the comment that ends it. */
  predicate StartsWith(s: string, i: nat, g: Segment, next: nat) {
    if next > |s| then i <= |s| && IsTail(s[i..])
    else i < next && Closed(s, next) && s[i..next] == Text(g) && Formed(g, s[next..])
  }

  lemma LineAt(s: string, i: nat) returns (g: Segment, next: nat)
    requires i < |s| && NulFree(s) && Closed(s, i) && s[i] == '/' && At(s, i + 1) == '/'
    ensures i < next && StartsWith(s, i, g, next)
  {
    hide LineEnd, NulFree;
    LineOf(s, i + 2);
    var e := LineEnd(s, i + 2);
    g, next := LineComment(s[i + 2..e]), e + 1;
    assert s[i..e] == "//" + s[i + 2..e];
    assert Piece(s, i) == (false, e);
    if e < |s| {
      assert s[i..e + 1] == s[i..e] + "\n";
      assert Piece(s, e) == (false, e + 1);
    } else {
      assert s[i..] == s[i..e];
    }
  }

  lemma ClosedStep(s: string, i: nat)
    requires i < |s| && s[i] != NUL && Closed(s, i)
    ensures Piece(s, i).1 <= |s| && Closed(s, Piece(s, i).1)
  {
    hide Piece;
  }

  lemma NulFreePart(s: string, a: nat, b: nat)
    requires NulFree(s) && a <= b <= |s|
    ensures NulFree(s[a..b]) && forall k | a <= k < |s| :: s[k] != NUL
  {
  }

  lemma BlockAt(s: string, i: nat) returns (g: Segment, next: nat)
    requires i < |s| && NulFree(s) && Closed(s, i) && s[i] == '/' && At(s, i + 1) == '*'
    ensures i < next && StartsWith(s, i, g, next)
  {
    hide CommentEnd, LineEnd, LiteralEnd, Unclosed, Closed, NulFree;
    assert s[i] != NUL;
    var e := CommentEnd(s, i + 1);
    ClosedStep(s, i);
    assert Piece(s, i) == (false, e + 2);
    CommentOf(s, i + 1);
    NulFreePart(s, i + 1, e);
    g, next := BlockComment(s[i + 1..e]), e + 2;
    assert s[i..e + 2] == [s[i]] + s[i + 1..e] + s[e..e + 2];
  }

  lemma LiteralAt(s: string, i: nat) returns (g: Segment, next: nat)
    requires i < |s| && NulFree(s) && Closed(s, i) && s[i] == '"'
    ensures i < next && StartsWith(s, i, g, next)
  {
    hide LiteralEnd, Escaped;
    var e := LiteralEnd(s, i + 1);
    assert Piece(s, i) == (true, e + 1);
    LiteralOf(s, i + 1);
    g, next := Literal(s[i + 1..e]), e + 1;
    assert s[i..e + 1] == [s[i]] + s[i + 1..e] + [s[e]];
  }

  lemma CharacterAt(s: string, i: nat) returns (g: Segment, next: nat)
    requires i < |s| && NulFree(s) && Closed(s, i) && s[i] != '"' && !(s[i] == '/' && (At(s, i + 1) == '/' || At(s, i + 1) == '*'))
    ensures i < next && StartsWith(s, i, g, next)
  {
    g, next := if Blank(s[i]) then Gap(s[i]) else Other(s[i]), i + 1;
    assert At(s[next..], 0) == At(s, next);
  }

  lemma SegmentAt(s: string, i: nat) returns (g: Segment, next: nat)
    requires i < |s| && NulFree(s) && Closed(s, i)
    ensures i < next && StartsWith(s, i, g, next)
  {
    hide StartsWith, Closed, NulFree;
    if s[i] == '/' && At(s, i + 1) == '/' {
      g, next := LineAt(s, i);
    } else if s[i] == '/' && At(s, i + 1) == '*' {
      g, next := BlockAt(s, i);
    } else if s[i] == '"' {
      g, next := LiteralAt(s, i);
    } else {
      g, next := CharacterAt(s, i);
    }
  }

  lemma {:induction false} SegmentsFrom(s: string, i: nat) returns (gs: seq<Segment>, tail: string)
    requires i <= |s| && NulFree(s) && Closed(s, i)
    ensures s[i..] == Texts(gs) + tail && AllFormed(gs, tail) && IsTail(tail)
    decreases |s| - i
  {
    hide Closed, Formed, Text;
    gs, tail := [], "";
    if i < |s| {
      var g, next := SegmentAt(s, i);
      if next > |s| {
        tail := s[i..];
      } else {
        var more;
        more, tail := SegmentsFrom(s, next);
        gs := [g] + more;
        assert gs[1..] == more;
        assert s[i..] == s[i..next] + s[next..];
      }
    }
  }

  /** The texts that segments make up are the texts with closed comments and literals. */
  lemma SegmentsExactly(s: string)
    requires NulFree(s)
    ensures Closed(s, 0) <==> exists gs, tail :: AllFormed(gs, tail) && IsTail(tail) && s == Texts(gs) + tail
  {
    hide Closed, AllFormed, IsTail, Minified, NulFree;
    if Closed(s, 0) {
      var gs, tail := SegmentsFrom(s, 0);
      assert s[0..] == s;
    }
    forall gs, tail | AllFormed(gs, tail) && IsTail(tail) && s == Texts(gs) + tail ensures Closed(s, 0) {
      CommentsRemoved(gs, tail);
    }
  }

  // ---------- comments mean nothing ----------

  /** A blank instead of each comment. */
  function Blanked(gs: seq<Segment>): (r: seq<Segment>) {
    if |gs| == 0 then []
    else [if gs[0].LineComment? || gs[0].BlockComment? then Gap(' ') else gs[0]] + Blanked(gs[1..])
  }

  function BlankedTail(tail: string): seq<Segment> {
    if tail == "" then [] else [Gap(' ')]
  }

  lemma {:induction false} BlankedForm(gs: seq<Segment>, tail: string)
    requires AllFormed(gs, tail) && IsTail(tail)
    ensures var bs := Blanked(gs) + BlankedTail(tail);
            AllFormed(bs, "") && LeftOver(bs) == LeftOver(gs) && NulFree(Texts(bs))
            && (At(Texts(gs) + tail, 0) == '/' || At(Texts(bs), 0) == At(Texts(gs) + tail, 0))
    decreases |gs|
  {
    hide Formed, Text, Left, IsTail, NulFree;
    var bs := Blanked(gs) + BlankedTail(tail);
    if |gs| == 0 {
      BlankedEnd(gs, tail);
    } else {
      var more := Blanked(gs[1..]) + BlankedTail(tail);
      assert bs == [bs[0]] + more && bs[1..] == more;
      BlankedForm(gs[1..], tail);
      assert Texts(gs) + tail == Text(gs[0]) + (Texts(gs[1..]) + tail);
      BlankedSegment(gs[0], Texts(gs[1..]) + tail, Texts(more));
      NulFreeBoth(Text(bs[0]), Texts(more));
      assert Texts(more) + "" == Texts(more);
    }
  }

  lemma NulFreeBoth(a: string, b: string)
    requires NulFree(a) && NulFree(b)
    ensures NulFree(a + b)
  {
  }

  lemma BlankedEnd(gs: seq<Segment>, tail: string)
    requires IsTail(tail) && |gs| == 0
    ensures var bs := Blanked(gs) + BlankedTail(tail);
            AllFormed(bs, "") && LeftOver(bs) == LeftOver(gs) && NulFree(Texts(bs))
            && (At(Texts(gs) + tail, 0) == '/' || At(Texts(bs), 0) == At(Texts(gs) + tail, 0))
  {
    var bs := Blanked(gs) + BlankedTail(tail);
    assert bs == BlankedTail(tail);
    if tail != "" {
      assert bs[1..] == [];
    }
  }

  lemma BlankedSegment(g: Segment, rest: string, other: string)
    requires Formed(g, rest) && (At(rest, 0) == '/' || At(other, 0) == At(rest, 0))
    ensures var b := if g.LineComment? || g.BlockComment? then Gap(' ') else g;
            Formed(b, other) && Left(b) == Left(g) && NulFree(Text(b))
            && (At(Text(g) + rest, 0) == '/' || At(Text(b) + other, 0) == At(Text(g) + rest, 0))
  {
    hide OneLine, Unclosed, Escaped;
  }

  /** Whatever a text strictly parses to when each of its comments is a blank, the minified
      text with its comments strictly parses to. */
  lemma CommentsKeepMeaning(gs: seq<Segment>, tail: string)
    requires AllFormed(gs, tail) && IsTail(tail)
    requires Parse(Texts(Blanked(gs) + BlankedTail(tail)), true).Ok?
    ensures var s := Texts(gs) + tail;
            Closed(s, 0)
            && Parse(Minified(s, 0), true) == Ok(Parse(Texts(Blanked(gs) + BlankedTail(tail)), true).value, |Minified(s, 0)|)
  {
    hide Parse, AllFormed, IsTail, Minified, NulFree, Texts, LeftOver, Closed;
    var bs := Blanked(gs) + BlankedTail(tail);
    BlankedForm(gs, tail);
    CommentsRemoved(gs, tail);
    NoTail();
    CommentsRemoved(bs, "");
    assert Texts(bs) + "" == Texts(bs);
    MinifyKeepsMeaning(Texts(bs));
  }

  lemma NoTail()
    ensures IsTail("")
  {
  }
}
