/** The scans for comments, quoted forms and character literals end exactly where the
    forms say. */
module LexicalScans {
  import opened Lexical
  import opened LexicalForms

  // ----- block comments -----

  /** A balanced body leaves the depth of the scan as it was. */
  lemma {:induction false} BodyRuns(s: string, i: nat, j: nat, d: nat)
    requires i <= j <= |s| && BodySpan(s, i, j) && d > 0
    ensures BlockEnd(s, i, d) == BlockEnd(s, j, d)
    decreases j - i
  {
    if i < j {
      if CommentOpens(s, i) {
        var k :| i < k <= j && CommentSpan(s, i, k) && BodySpan(s, k, j);
        BodyRuns(s, i + 2, k - 2, d + 1);
        BodyRuns(s, k, j, d);
      } else {
        BodyRuns(s, i + 1, j, d);
      }
    }
  }

  /** Where the scan leaves this depth, a balanced body has been read. */
  lemma {:induction false} BodyFound(s: string, i: nat, d: nat) returns (k: nat)
    requires i <= |s| && d > 0 && BlockEnd(s, i, d).1 == 0
    ensures i <= k && k + 2 <= |s| && BodySpan(s, i, k) && CommentCloses(s, k)
    ensures BlockEnd(s, k + 2, d - 1) == BlockEnd(s, i, d)
    decreases |s| - i
  {
    if CommentOpens(s, i) {
      var m := BodyFound(s, i + 2, d + 1);
      assert CommentSpan(s, i, m + 2);
      k := BodyFound(s, m + 2, d);
    } else if CommentCloses(s, i) {
      k := i;
    } else {
      k := BodyFound(s, i + 1, d);
    }
  }

  lemma {:induction false} OpenRunsOut(s: string, i: nat, d: nat)
    requires i <= |s| && BlockEnd(s, i, d).1 != 0
    ensures BlockEnd(s, i, d).0 == |s|
    decreases |s| - i
  {
    if i < |s| {
      if CommentOpens(s, i) { OpenRunsOut(s, i + 2, d + 1); }
      else if CommentCloses(s, i) { OpenRunsOut(s, i + 2, d - 1); }
      else { OpenRunsOut(s, i + 1, d); }
    }
  }

  /** A scan that found the end, or one that ran to the end of the source. */
  ghost predicate Decides(k: Kind, s: string, i: nat, r: (nat, bool))
    requires Delimited(k)
  {
    r.0 <= |s| && (r.1 ==> Closed(k, s, i, r.0)) && (!r.1 ==> r.0 == |s|)
    && forall j: nat :: Closed(k, s, i, j) ==> r == (j, true)
  }

  lemma BlockDecides(s: string, i: nat)
    requires CommentOpens(s, i)
    ensures var r := BlockEnd(s, i + 2, 1); Decides(BlockComment, s, i, (r.0, r.1 == 0))
  {
    var r := BlockEnd(s, i + 2, 1);
    if r.1 == 0 {
      var k := BodyFound(s, i + 2, 1);
    } else {
      OpenRunsOut(s, i + 2, 1);
    }
    forall j: nat | Closed(BlockComment, s, i, j) ensures r == (j, 0) {
      BodyRuns(s, i + 2, j - 2, 1);
    }
  }

  // ----- strings -----

  /** Hex digits are ordinary characters. */
  lemma HexIsOrdinary(s: string, i: nat)
    requires i <= |s|
    ensures StringEnd(s, HexEnd(s, i)) == StringEnd(s, i)
  {
  }

  lemma {:induction false} UntilFirst(s: string, i: nat, j: nat, c: char)
    requires i <= j < |s| && s[j] == c && forall p :: i <= p < j ==> s[p] != c
    ensures Until(s, i, c) == j
    decreases j - i
  {
    if i < j { UntilFirst(s, i + 1, j, c); }
  }

  lemma {:induction false} UntilPasses(s: string, i: nat, c: char)
    requires i <= |s|
    ensures forall p :: i <= p < Until(s, i, c) ==> s[p] != c
    decreases |s| - i
  {
    if i < |s| && s[i] != c { UntilPasses(s, i + 1, c); }
  }

  /** An escape without braces: the scan goes on two characters later. */
  lemma PlainEscape(s: string, i: nat)
    requires i + 2 <= |s| && s[i] == '\\' && !BraceEscape(s, i)
    ensures StringEnd(s, i) == StringEnd(s, i + 2)
  {
    if s[i + 1] == 'x' {
      HexIsOrdinary(s, i + 2);
      HexIsOrdinary(s, HexEnd(s, i + 2));
    }
  }

  lemma BraceEscapeEnds(s: string, i: nat, k: nat)
    requires BraceSpan(s, i, k)
    ensures StringEnd(s, i) == StringEnd(s, k) && EscapeEnd(s, i + 1) == k
  {
    UntilFirst(s, i + 3, k - 1, CLOSE);
  }

  lemma {:induction false} StringRuns(s: string, i: nat, j: nat)
    requires i <= j <= |s| && StringItems(s, i, j)
    ensures StringEnd(s, i) == StringEnd(s, j)
    decreases j - i
  {
    if i < j {
      if BraceEscape(s, i) {
        var k :| i < k <= j && BraceSpan(s, i, k) && StringItems(s, k, j);
        BraceEscapeEnds(s, i, k);
        StringRuns(s, k, j);
      } else if s[i] == '\\' {
        PlainEscape(s, i);
        StringRuns(s, i + 2, j);
      } else {
        StringRuns(s, i + 1, j);
      }
    }
  }

  lemma {:induction false} StringFound(s: string, i: nat)
    requires i <= |s|
    ensures var r := StringEnd(s, i); if r.1 then i < r.0 && s[r.0 - 1] == '"' && StringItems(s, i, r.0 - 1) else r.0 == |s|
    decreases |s| - i
  {
    if i < |s| {
      if BraceEscape(s, i) {
        var k := EscapeEnd(s, i + 1);
        StringFound(s, k);
        UntilPasses(s, i + 3, CLOSE);
        if StringEnd(s, i).1 { assert BraceSpan(s, i, k); }
      } else if s[i] == '\\' {
        if i + 2 <= |s| {
          PlainEscape(s, i);
          StringFound(s, i + 2);
        }
      } else if s[i] != '"' {
        StringFound(s, i + 1);
      }
    }
  }

  lemma StringDecides(s: string, i: nat)
    requires Is(s, i, '"')
    ensures Decides(StringLit, s, i, StringEnd(s, i + 1))
  {
    StringFound(s, i + 1);
    forall j: nat | Closed(StringLit, s, i, j) ensures StringEnd(s, i + 1) == (j, true) { StringRuns(s, i + 1, j - 1); }
  }

  // ----- byte strings -----

  lemma {:induction false} ByteRuns(s: string, i: nat, j: nat)
    requires i <= j <= |s| && ByteItems(s, i, j)
    ensures ByteEnd(s, i) == ByteEnd(s, j)
    decreases j - i
  {
    if i < j { ByteRuns(s, if s[i] == '\\' then i + 2 else i + 1, j); }
  }

  lemma {:induction false} ByteFound(s: string, i: nat)
    requires i <= |s|
    ensures var r := ByteEnd(s, i); if r.1 then i < r.0 && s[r.0 - 1] == '"' && ByteItems(s, i, r.0 - 1) else r.0 == |s|
    decreases |s| - i
  {
    if i < |s| && s[i] != '"' { ByteFound(s, if s[i] == '\\' then Skip(s, i + 1) else i + 1); }
  }

  lemma ByteDecides(s: string, i: nat)
    requires Is(s, i, 'b') && Is(s, i + 1, '"')
    ensures Decides(ByteStringLit, s, i, ByteEnd(s, i + 2))
  {
    ByteFound(s, i + 2);
    forall j: nat | Closed(ByteStringLit, s, i, j) ensures ByteEnd(s, i + 2) == (j, true) { ByteRuns(s, i + 2, j - 1); }
  }

  // ----- templates -----

  lemma {:induction false} BracedRuns(s: string, i: nat, j: nat, d: nat)
    requires i <= j <= |s| && BracedItems(s, i, j) && d > 0
    ensures HtmlEnd(s, i, d) == HtmlEnd(s, j, d)
    decreases j - i
  {
    if i < j {
      if s[i] == '\\' {
        BracedRuns(s, i + 2, j, d);
      } else if s[i] == OPEN {
        var k :| i < k <= j && BracedSpan(s, i, k) && BracedItems(s, k, j);
        BracedRuns(s, i + 1, k - 1, d + 1);
        BracedRuns(s, k, j, d);
      } else {
        BracedRuns(s, i + 1, j, d);
      }
    }
  }

  lemma {:induction false} HtmlRuns(s: string, i: nat, j: nat)
    requires i <= j <= |s| && HtmlItems(s, i, j)
    ensures HtmlEnd(s, i, 0) == HtmlEnd(s, j, 0)
    decreases j - i
  {
    if i < j {
      if s[i] == '\\' {
        HtmlRuns(s, i + 2, j);
      } else if s[i] == OPEN {
        var k :| i < k <= j && BracedSpan(s, i, k) && HtmlItems(s, k, j);
        BracedRuns(s, i + 1, k - 1, 1);
        HtmlRuns(s, k, j);
      } else {
        HtmlRuns(s, i + 1, j);
      }
    }
  }

  /** Where the scan leaves this depth, the braces inside are balanced. */
  lemma {:induction false} BracedFound(s: string, i: nat, d: nat) returns (k: nat)
    requires i <= |s| && d > 0 && HtmlEnd(s, i, d).1
    ensures i <= k < |s| && BracedItems(s, i, k) && s[k] == CLOSE && HtmlEnd(s, k + 1, d - 1) == HtmlEnd(s, i, d)
    decreases |s| - i
  {
    if s[i] == '\\' {
      k := BracedFound(s, Skip(s, i + 1), d);
    } else if s[i] == OPEN {
      var m := BracedFound(s, i + 1, d + 1);
      assert BracedSpan(s, i, m + 1);
      k := BracedFound(s, m + 1, d);
    } else if s[i] == CLOSE {
      k := i;
    } else {
      k := BracedFound(s, i + 1, d);
    }
  }

  lemma {:induction false} HtmlFound(s: string, i: nat)
    requires i <= |s| && HtmlEnd(s, i, 0).1
    ensures var r := HtmlEnd(s, i, 0); i < r.0 && s[r.0 - 1] == '"' && HtmlItems(s, i, r.0 - 1)
    decreases |s| - i
  {
    if s[i] == '\\' {
      HtmlFound(s, Skip(s, i + 1));
    } else if s[i] == OPEN {
      var k := BracedFound(s, i + 1, 1);
      assert BracedSpan(s, i, k + 1);
      HtmlFound(s, k + 1);
    } else if s[i] != '"' {
      HtmlFound(s, i + 1);
    }
  }

  lemma {:induction false} HtmlRunsOut(s: string, i: nat, d: nat)
    requires i <= |s| && !HtmlEnd(s, i, d).1
    ensures HtmlEnd(s, i, d).0 == |s|
    decreases |s| - i
  {
    if i < |s| {
      if s[i] == '\\' { HtmlRunsOut(s, Skip(s, i + 1), d); }
      else if s[i] == OPEN { HtmlRunsOut(s, i + 1, d + 1); }
      else if s[i] == CLOSE { HtmlRunsOut(s, i + 1, if d > 0 then d - 1 else d); }
      else { HtmlRunsOut(s, i + 1, d); }
    }
  }

  lemma HtmlDecides(s: string, i: nat)
    requires Opens(HtmlLit, s, i)
    ensures Decides(HtmlLit, s, i, HtmlEnd(s, i + 5, 0))
  {
    if HtmlEnd(s, i + 5, 0).1 { HtmlFound(s, i + 5); } else { HtmlRunsOut(s, i + 5, 0); }
    forall j: nat | Closed(HtmlLit, s, i, j) ensures HtmlEnd(s, i + 5, 0) == (j, true) { HtmlRuns(s, i + 5, j - 1); }
  }

  // ----- raw strings -----

  lemma {:induction false} HashesAll(s: string, i: nat)
    requires i <= |s|
    ensures var e := HashesEnd(s, i); !Is(s, e, '#') && forall p :: i <= p < e ==> s[p] == '#'
    decreases |s| - i
  {
    if Is(s, i, '#') { HashesAll(s, i + 1); }
  }

  lemma TailStarts(s: string, k: nat, n: nat)
    ensures StartsAt(s, k, "\"" + Hashes(n)) <==> RawTail(s, k, n)
  {
    var stop := "\"" + Hashes(n);
    if StartsAt(s, k, stop) {
      forall p | k < p <= k + n ensures s[p] == '#' { assert s[p] == s[k..k + n + 1][p - k] == stop[p - k]; }
      assert s[k] == s[k..k + n + 1][0];
    }
    if RawTail(s, k, n) { assert s[k..k + n + 1] == stop; }
  }

  lemma {:induction false} RawFound(s: string, i: nat, n: nat)
    requires i <= |s|
    ensures
      var r := RawEnd(s, i, "\"" + Hashes(n));
      if r.1 then i + n + 1 <= r.0 && RawTail(s, r.0 - n - 1, n) && forall k :: i <= k < r.0 - n - 1 ==> !RawTail(s, k, n)
      else r.0 == |s| && forall k: nat :: i <= k ==> !RawTail(s, k, n)
    decreases |s| - i
  {
    if i < |s| {
      TailStarts(s, i, n);
      if !RawTail(s, i, n) { RawFound(s, i + 1, n); }
    }
  }

  /** The number of hashes is the scanner's. */
  lemma {:induction false} HashesTo(s: string, i: nat, e: nat)
    requires i <= e <= |s| && (forall p :: i <= p < e ==> s[p] == '#') && !Is(s, e, '#')
    ensures HashesEnd(s, i) == e
    decreases e - i
  {
    if i < e { HashesTo(s, i + 1, e); }
  }

  lemma HeadOnce(s: string, i: nat, n: nat)
    requires RawHead(s, i, n)
    ensures HashesEnd(s, i + 1) == i + 1 + n
  {
    HashesTo(s, i + 1, i + 1 + n);
  }

  lemma RawOpening(s: string, i: nat)
    requires i < |s|
    ensures RawOpens(s, i) <==> Opens(RawStringLit, s, i)
  {
    HashesAll(s, i + 1);
    if RawOpens(s, i) {
      assert RawHead(s, i, HashesEnd(s, i + 1) - (i + 1));
    }
    if Opens(RawStringLit, s, i) {
      var n :| 0 <= n <= |s| && RawHead(s, i, n);
      HeadOnce(s, i, n);
    }
  }

  lemma RawOnly(s: string, i: nat, j: nat, n: nat, e: nat)
    requires e == i + 1 + n <= |s| && HashesEnd(s, i + 1) == e && Closed(RawStringLit, s, i, j)
    ensures RawSpan(s, i, j, n)
  {
    var m :| 0 <= m <= |s| && RawSpan(s, i, j, m);
    HeadOnce(s, i, m);
  }

  lemma RawEnds(s: string, i: nat, j: nat, n: nat)
    requires RawSpan(s, i, j, n)
    ensures RawEnd(s, i + n + 2, "\"" + Hashes(n)) == (j, true)
  {
    var r := RawEnd(s, i + n + 2, "\"" + Hashes(n));
    RawFound(s, i + n + 2, n);
    assert RawTail(s, j - n - 1, n);
  }

  lemma RawIsClosed(s: string, i: nat, j: nat, n: nat)
    requires RawSpan(s, i, j, n)
    ensures Closed(RawStringLit, s, i, j)
  {
  }

  /** Where the scan of a raw string ends, and whether its tail was found. */
  ghost function RawResult(s: string, i: nat): (r: (nat, bool))
    requires i < |s| && RawOpens(s, i)
    ensures i + 2 <= r.0 <= |s|
  {
    var j := HashesEnd(s, i + 1);
    RawEnd(s, j + 1, "\"" + Hashes(j - (i + 1)))
  }

  lemma RawDecides(s: string, i: nat)
    requires i < |s| && RawOpens(s, i)
    ensures Decides(RawStringLit, s, i, RawResult(s, i)) && Raw(s, i) == Quoted(RawStringLit, i, RawResult(s, i))
  {
    var e := HashesEnd(s, i + 1);
    var n := e - (i + 1);
    var r := RawEnd(s, e + 1, "\"" + Hashes(n));
    HashesAll(s, i + 1);
    assert RawHead(s, i, n);
    RawFound(s, e + 1, n);
    if r.1 { RawIsClosed(s, i, r.0, n); }
    forall j: nat | Closed(RawStringLit, s, i, j) ensures r == (j, true) {
      RawOnly(s, i, j, n, e);
      RawEnds(s, i, j, n);
    }
  }

  // ----- character literals -----

  lemma CharReaches(s: string, i: nat)
    requires i <= |s|
    ensures CharBody(s, i, CharEnd(s, i))
  {
    if BraceEscape(s, i) {
      UntilPasses(s, i + 3, CLOSE);
      if Until(s, i + 3, CLOSE) < |s| { assert BraceSpan(s, i, CharEnd(s, i)); }
    }
  }

  /** The scan takes as much as it can, and no shorter body has a quote behind it. */
  lemma CharLongest(s: string, i: nat, b: nat)
    requires i <= b <= |s| && CharBody(s, i, b)
    ensures b <= CharEnd(s, i) && (b < CharEnd(s, i) ==> s[b] != '\'')
  {
    if BraceEscape(s, i) {
      UntilPasses(s, i + 3, CLOSE);
      if BraceSpan(s, i, b) { UntilFirst(s, i + 3, b - 1, CLOSE); }
    }
  }

  /** The span of a character literal, and whether it is closed. */
  lemma CharDecides(s: string, i: nat, j: nat)
    requires Is(s, i, '\'')
    ensures
      var e := CharEnd(s, i + 1);
      var end := if Is(s, e, '\'') then e + 1 else e;
      && CharFits(s, i, end) && (CharFits(s, i, j) ==> j <= end) && (CharClosed(s, i, end) <==> Is(s, e, '\''))
  {
    var e := CharEnd(s, i + 1);
    CharReaches(s, i + 1);
    if Is(s, e, '\'') { assert CharClosed(s, i, e + 1); }
    if CharClosed(s, i, j) { CharLongest(s, i + 1, j - 1); }
    if CharFits(s, i, j) && !CharClosed(s, i, j) { CharLongest(s, i + 1, j); }
    if CharClosed(s, i, e) { CharLongest(s, i + 1, e - 1); }
  }
}
