/** Wherever the lexer stands, it takes the best token there is. */
module LexicalProof {
  import opened Wrappers
  import opened Lexical
  import opened LexicalForms
  import opened LexicalScans
  import opened LexicalNumbers

  // ----- how each kind starts -----

  predicate Starts(ls: Letters, k: Kind, s: string, i: nat)
    requires i < |s|
  {
    match k
    case Whitespace => s[i] == ' ' || s[i] == '\t'
    case Newline => s[i] == '\n'
    case LineComment => s[i] == '/' && Is(s, i + 1, '/')
    case DocComment => s[i] == '/' && Is(s, i + 1, '/')
    case BlockComment => CommentOpens(s, i)
    case StringLit => s[i] == '"'
    case RawStringLit => RawOpens(s, i)
    case ByteStringLit => s[i] == 'b' && Is(s, i + 1, '"')
    case HtmlLit => s[i] == 'h' && Opens(HtmlLit, s, i)
    case CharLit => s[i] == '\''
    case Underscore => NameStart(ls, s[i])
    case Keyword => NameStart(ls, s[i])
    case Ident => NameStart(ls, s[i])
    case Punct => s[i] in ONES
    case Eof => false
    case _ => Digit(s[i])
  }

  /** Every punctuation starts with one of a single character. */
  lemma PunctStarts(p: string)
    requires IsPunct(p)
    ensures 1 <= |p| <= 3 && p[0] in ONES && (p[0] == '/' ==> p == "/" || p == "/=")
  {
  }

  lemma FitsStarts(ls: Letters, k: Kind, s: string, i: nat, j: nat)
    requires i < |s| && Fits(ls, k, s, i, j)
    ensures Starts(ls, k, s, i)
  {
    match k
    case RawStringLit => RawOpening(s, i);
    case Punct =>
      PunctStarts(s[i..j]);
      assert s[i..j][0] == s[i];
    case IntLit | FloatLit | SizeLit | DurationLit => NumberStarts(ls, k, s, i, j);
    case _ =>
  }

  lemma NumberStarts(ls: Letters, k: Kind, s: string, i: nat, j: nat)
    requires i < |s| && NumberKind(k) && Fits(ls, k, s, i, j)
    ensures Digit(s[i])
  {
    if k == IntLit && !DecimalInt(ls, s, i, j) {
      var b :| BasedInt(ls, s, i, j, b);
    }
  }

  // ----- blanks and comments -----

  lemma {:induction false} SpaceMost(s: string, i: nat)
    requires i <= |s|
    ensures var e := SpaceEnd(s, i); !Is(s, e, ' ') && !Is(s, e, '\t') && forall p :: i <= p < e ==> s[p] == ' ' || s[p] == '\t'
    decreases |s| - i
  {
    if Is(s, i, ' ') || Is(s, i, '\t') { SpaceMost(s, i + 1); }
  }

  lemma SpaceBest(ls: Letters, s: string, i: nat)
    requires i < |s| && (s[i] == ' ' || s[i] == '\t')
    ensures Best(ls, Whitespace, s, i, SpaceEnd(s, i + 1))
  {
    SpaceMost(s, i + 1);
    forall k, j: nat | Fits(ls, k, s, i, j) ensures k == Whitespace && j <= SpaceEnd(s, i + 1) { FitsStarts(ls, k, s, i, j); }
  }

  lemma NewlineBest(ls: Letters, s: string, i: nat)
    requires i < |s| && s[i] == '\n'
    ensures Best(ls, Newline, s, i, i + 1)
  {
    forall k, j: nat | Fits(ls, k, s, i, j) ensures k == Newline { FitsStarts(ls, k, s, i, j); }
  }

  /** Punctuation before a second slash or a star is the slash alone. */
  lemma SlashAlone(s: string, i: nat, j: nat)
    requires i < j <= |s| && IsPunct(s[i..j]) && s[i] == '/' && (Is(s, i + 1, '/') || Is(s, i + 1, '*'))
    ensures j == i + 1
  {
    var p := s[i..j];
    forall q | 0 <= q < |p| ensures p[q] == s[i + q] { }
    PunctStarts(p);
  }

  lemma CommentFits(s: string, i: nat)
    requires i + 2 <= |s| && s[i] == '/' && s[i + 1] == '/'
    ensures
      var r := Comment(s, i);
      && Slashes(s, i, r.end) && r.kind == Some(if ThreeSlashes(s, i, r.end) then DocComment else LineComment)
      && forall j: nat :: Slashes(s, i, j) ==> j <= r.end
  {
    var m := if IsDoc(s, i) then i + 3 else i + 2;
    var e := Until(s, m, '\n');
    UntilPasses(s, m, '\n');
    forall p | i <= p < e ensures s[p] != '\n' { }
    forall j: nat | Slashes(s, i, j) ensures j <= e { }
  }

  lemma CommentBest(ls: Letters, s: string, i: nat)
    requires i < |s| && s[i] == '/' && Is(s, i + 1, '/')
    ensures var r := Comment(s, i); Best(ls, r.kind.value, s, i, r.end)
  {
    var r := Comment(s, i);
    CommentFits(s, i);
    forall k, j: nat | Fits(ls, k, s, i, j) ensures j <= r.end && (j == r.end ==> k == r.kind.value) {
      FitsStarts(ls, k, s, i, j);
      if k == Punct { SlashAlone(s, i, j); }
    }
  }

  // ----- delimited forms -----

  /** The scan that decides is the only span. */
  lemma OneSpan(k: Kind, s: string, i: nat, r: (nat, bool))
    requires Delimited(k) && Opens(k, s, i) && Decides(k, s, i, r)
    ensures forall j: nat :: DelimitedFits(k, s, i, j) <==> j == r.0
    ensures Closed(k, s, i, r.0) <==> r.1
  {
  }

  lemma BlockBest(ls: Letters, s: string, i: nat)
    requires i < |s| && CommentOpens(s, i)
    ensures var r := Block(s, i); Best(ls, BlockComment, s, i, r.end) && r.notes == Faults(BlockComment, s, i, r.end)
  {
    var r := BlockEnd(s, i + 2, 1);
    BlockDecides(s, i);
    OneSpan(BlockComment, s, i, (r.0, r.1 == 0));
    assert DelimitedFits(BlockComment, s, i, r.0);
    forall k, j: nat | Fits(ls, k, s, i, j) ensures j <= r.0 && (j == r.0 ==> k == BlockComment) {
      FitsStarts(ls, k, s, i, j);
      if k == Punct { SlashAlone(s, i, j); }
    }
  }

  /** Of the forms that open with a name character, the literal is longer than the name. */
  lemma QuotedBest(ls: Letters, k: Kind, s: string, i: nat, r: (nat, bool), q: nat)
    requires Delimited(k) && k != BlockComment && i < q < r.0 && q <= |s|
    requires Opens(k, s, i) && Decides(k, s, i, r) && !MoreAt(ls, s, q)
    requires forall k', j: nat :: Fits(ls, k', s, i, j) && k' != k ==> NameText(ls, s, i, j)
    ensures Best(ls, k, s, i, r.0) && Quoted(k, i, r).notes == Faults(k, s, i, r.0)
  {
    OneSpan(k, s, i, r);
    assert DelimitedFits(k, s, i, r.0);
    forall k', j: nat | Fits(ls, k', s, i, j) ensures j <= r.0 && (j == r.0 ==> k' == k) { }
  }

  lemma HtmlSpelled(s: string, i: nat)
    ensures StartsAt(s, i, "html\"") <==> Opens(HtmlLit, s, i)
  {
    if i + 5 <= |s| { assert s[i..i + 5] == [s[i], s[i + 1], s[i + 2], s[i + 3], s[i + 4]]; }
  }

  lemma StringBest(ls: Letters, s: string, i: nat)
    requires i < |s| && s[i] == '"'
    ensures var r := StringEnd(s, i + 1); Best(ls, StringLit, s, i, r.0) && Quoted(StringLit, i, r).notes == Faults(StringLit, s, i, r.0)
  {
    var r := StringEnd(s, i + 1);
    StringDecides(s, i);
    OneSpan(StringLit, s, i, r);
    assert DelimitedFits(StringLit, s, i, r.0);
    forall k, j: nat | Fits(ls, k, s, i, j) ensures k == StringLit { FitsStarts(ls, k, s, i, j); }
  }

  lemma ByteBest(ls: Letters, s: string, i: nat)
    requires i < |s| && s[i] == 'b' && Is(s, i + 1, '"')
    ensures var r := ByteEnd(s, i + 2); Best(ls, ByteStringLit, s, i, r.0) && Quoted(ByteStringLit, i, r).notes == Faults(ByteStringLit, s, i, r.0)
  {
    ByteDecides(s, i);
    forall k, j: nat | Fits(ls, k, s, i, j) && k != ByteStringLit ensures NameText(ls, s, i, j) { FitsStarts(ls, k, s, i, j); }
    QuotedBest(ls, ByteStringLit, s, i, ByteEnd(s, i + 2), i + 1);
  }

  lemma HtmlBest(ls: Letters, s: string, i: nat)
    requires i < |s| && StartsAt(s, i, "html\"")
    ensures var r := HtmlEnd(s, i + 5, 0); Best(ls, HtmlLit, s, i, r.0) && Quoted(HtmlLit, i, r).notes == Faults(HtmlLit, s, i, r.0)
  {
    HtmlSpelled(s, i);
    HtmlDecides(s, i);
    forall k, j: nat | Fits(ls, k, s, i, j) && k != HtmlLit ensures NameText(ls, s, i, j) { FitsStarts(ls, k, s, i, j); }
    QuotedBest(ls, HtmlLit, s, i, HtmlEnd(s, i + 5, 0), i + 4);
  }

  lemma RawEndsName(ls: Letters, s: string, i: nat)
    requires i < |s| && RawOpens(s, i)
    ensures !MoreAt(ls, s, i + 1)
  {
    HashesAll(s, i + 1);
  }

  lemma RawBest(ls: Letters, s: string, i: nat)
    requires i < |s| && RawOpens(s, i)
    ensures var r := Raw(s, i); Best(ls, RawStringLit, s, i, r.end) && r.notes == Faults(RawStringLit, s, i, r.end)
  {
    RawOpening(s, i);
    RawDecides(s, i);
    RawEndsName(ls, s, i);
    forall k, j: nat | Fits(ls, k, s, i, j) && k != RawStringLit ensures NameText(ls, s, i, j) { FitsStarts(ls, k, s, i, j); }
    QuotedBest(ls, RawStringLit, s, i, RawResult(s, i), i + 1);
  }

  lemma CharBest(ls: Letters, s: string, i: nat)
    requires i < |s| && s[i] == '\''
    ensures var r := CharScan(s, i); Best(ls, CharLit, s, i, r.end) && r.notes == Faults(CharLit, s, i, r.end)
  {
    var r := CharScan(s, i);
    CharDecides(s, i, r.end);
    forall k, j: nat | Fits(ls, k, s, i, j) ensures k == CharLit && j <= r.end {
      FitsStarts(ls, k, s, i, j);
      CharDecides(s, i, j);
    }
  }

  // ----- numbers, names and punctuation -----

  lemma NumberBest(ls: Letters, s: string, i: nat)
    requires i < |s| && Digit(s[i])
    ensures var r := Number(ls, s, i); Best(ls, r.kind.value, s, i, r.end) && r.notes == Faults(r.kind.value, s, i, r.end)
  {
    var r := Number(ls, s, i);
    NumberFits(ls, s, i);
    NumberNotes(ls, s, i);
    forall k, j: nat | Fits(ls, k, s, i, j) ensures j <= r.end && (j == r.end ==> k == r.kind.value) {
      NumberOnly(ls, s, i, k, j);
      NumberMost(ls, s, i, k, j);
    }
  }

  lemma NumberOnly(ls: Letters, s: string, i: nat, k: Kind, j: nat)
    requires i < |s| && Digit(s[i]) && Fits(ls, k, s, i, j)
    ensures NumberKind(k)
  {
    FitsStarts(ls, k, s, i, j);
  }

  /** Not the head of a raw string, a byte string or a template. */
  predicate PlainName(ls: Letters, s: string, i: nat)
    requires i < |s|
  {
    && NameStart(ls, s[i]) && !RawOpens(s, i)
    && !(s[i] == 'b' && Is(s, i + 1, '"')) && !StartsAt(s, i, "html\"")
  }

  /** No name, number or blank starts with punctuation. */
  lemma OnesApart(ls: Letters, c: char)
    requires c in ONES
    ensures !NameStart(ls, c) && !Digit(c) && c != ' ' && c != '\t' && c != '\n' && c != '"' && c != '\''
  {
  }

  lemma NameOnly(ls: Letters, s: string, i: nat, k: Kind)
    requires i < |s| && PlainName(ls, s, i) && Starts(ls, k, s, i)
    ensures k == Underscore || k == Keyword || k == Ident
  {
    HtmlSpelled(s, i);
    if s[i] in ONES { OnesApart(ls, s[i]); }
  }

  lemma NameBest(ls: Letters, s: string, i: nat)
    requires i < |s| && PlainName(ls, s, i)
    ensures var r := Name(ls, s, i); Best(ls, r.kind.value, s, i, r.end) && r.notes == Faults(r.kind.value, s, i, r.end)
  {
    var r := Name(ls, s, i);
    NameIsLongest(ls, s, i + 1);
    assert NameText(ls, s, i, r.end);
    forall k, j: nat | Fits(ls, k, s, i, j) ensures j <= r.end && (j == r.end ==> k == r.kind.value) {
      FitsStarts(ls, k, s, i, j);
      NameOnly(ls, s, i, k);
    }
  }

  lemma PunctFits(s: string, i: nat, j: nat)
    requires i < j <= |s| && IsPunct(s[i..j])
    ensures j <= i + PunctSize(s, i)
  {
    LongestPunct(s, i);
    assert StartsAt(s, i, s[i..j]);
  }

  lemma PunctTaken(s: string, i: nat)
    requires i < |s| && PunctSize(s, i) > 0
    ensures IsPunct(s[i..i + PunctSize(s, i)])
  {
    LongestPunct(s, i);
  }

  /** No other kind starts here. */
  ghost predicate PunctOnly(ls: Letters, s: string, i: nat)
    requires i < |s|
  {
    forall k: Kind :: k != Punct ==> !Starts(ls, k, s, i)
  }

  lemma OtherForms(ls: Letters, s: string, i: nat, k: Kind, j: nat)
    requires i < |s| && PunctOnly(ls, s, i) && Fits(ls, k, s, i, j)
    ensures k == Punct && IsPunct(s[i..j])
  {
    FitsStarts(ls, k, s, i, j);
  }

  lemma PunctBest(ls: Letters, s: string, i: nat)
    requires i < |s| && PunctOnly(ls, s, i) && PunctSize(s, i) > 0
    ensures Best(ls, Punct, s, i, i + PunctSize(s, i))
  {
    PunctTaken(s, i);
    forall k, j: nat | Fits(ls, k, s, i, j) ensures k == Punct && j <= i + PunctSize(s, i) {
      OtherForms(ls, s, i, k, j);
      PunctFits(s, i, j);
    }
  }

  lemma NothingBest(ls: Letters, s: string, i: nat)
    requires i < |s| && PunctOnly(ls, s, i) && PunctSize(s, i) == 0
    ensures NothingFits(ls, s, i)
  {
    forall k, j: nat | Fits(ls, k, s, i, j) ensures false {
      OtherForms(ls, s, i, k, j);
      PunctFits(s, i, j);
    }
  }

  /** A scan that is right: the best token with its reports, or an unknown character
      with which nothing begins. */
  ghost predicate Right(ls: Letters, s: string, i: nat, r: Scan) {
    match r.kind
    case Some(k) => Best(ls, k, s, i, r.end) && r.notes == Faults(k, s, i, r.end)
    case None => r.end == i + 1 && NothingFits(ls, s, i) && r.notes == [Note(UnknownChar, i, i + 1)]
  }

  lemma LastIsBest(ls: Letters, s: string, i: nat)
    requires i < |s| && PunctOnly(ls, s, i)
    ensures Right(ls, s, i, PunctOrUnknown(s, i))
  {
    if PunctSize(s, i) > 0 { PunctBest(ls, s, i); } else { NothingBest(ls, s, i); }
  }

  /** The token at every position, and its reports. */
  lemma NextIsBest(ls: Letters, s: string, i: nat)
    requires i < |s|
    ensures Right(ls, s, i, Next(ls, s, i))
  {
    var c := s[i];
    if c == ' ' || c == '\t' { SpaceBest(ls, s, i); }
    else if c == '\n' { NewlineBest(ls, s, i); }
    else if c == '/' && Is(s, i + 1, '/') { CommentBest(ls, s, i); }
    else if c == '/' && Is(s, i + 1, '*') { BlockBest(ls, s, i); }
    else if RawOpens(s, i) { RawBest(ls, s, i); }
    else if c == 'b' && Is(s, i + 1, '"') { ByteBest(ls, s, i); }
    else if StartsAt(s, i, "html\"") { HtmlBest(ls, s, i); }
    else if c == '"' { StringBest(ls, s, i); }
    else if c == '\'' { CharBest(ls, s, i); }
    else if Digit(c) { NumberBest(ls, s, i); }
    else if NameStart(ls, c) { NameBest(ls, s, i); }
    else {
      HtmlSpelled(s, i);
      forall k: Kind | k != Punct ensures !Starts(ls, k, s, i) { }
      LastIsBest(ls, s, i);
    }
  }

  // ----- the whole source -----

  lemma LexStarts(ls: Letters, s: string, i: nat)
    requires i <= |s|
    ensures var ts := Lex(ls, s, i).tokens; ts != [] ==> ts[0].start >= i
  {
    var out := Lex(ls, s, i);
    LexTiles(ls, s, i);
    NoneBefore(out.tokens, Unknowns(out.notes), i, |s|);
  }

  lemma LexedStep(ls: Letters, s: string, i: nat, r: Scan, rest: Out)
    requires i < r.end <= |s| && Lexed(ls, s, r.end, rest.tokens, rest.notes) && Right(ls, s, i, r)
    requires rest.tokens != [] ==> rest.tokens[0].start > i
    ensures Lexed(ls, s, i, Made(s, i, r) + rest.tokens, r.notes + rest.notes)
  {
    var ts, ns := Made(s, i, r) + rest.tokens, r.notes + rest.notes;
    if r.kind.Some? {
      assert ts[1..] == rest.tokens && ns[|r.notes|..] == rest.notes;
    } else {
      assert ts == rest.tokens && ns[1..] == rest.notes;
    }
  }

  lemma {:induction false} LexIsLexed(ls: Letters, s: string, i: nat)
    requires i <= |s|
    ensures var out := Lex(ls, s, i); Lexed(ls, s, i, out.tokens, out.notes)
    decreases |s| - i
  {
    if i < |s| {
      var r := Next(ls, s, i);
      NextIsBest(ls, s, i);
      LexStarts(ls, s, r.end);
      LexIsLexed(ls, s, r.end);
      LexedStep(ls, s, i, r, Lex(ls, s, r.end));
    }
  }
}
