/** The lexer as it runs: a cursor over the source, the tokens made and the reports. */
module Lexers {
  import opened Wrappers
  import opened Lexical
  import opened LexicalForms
  import opened LexicalProof

  /** What was lexed from `i` and what remains from `j` make up what there was. */
  ghost predicate Owes(ls: Letters, s: string, all: Out, j: nat, ts: seq<Token>, ns: seq<Note>) {
    j <= |s| && ts + Lex(ls, s, j).tokens == all.tokens && ns + Lex(ls, s, j).notes == all.notes
  }

  lemma LexStep(ls: Letters, s: string, all: Out, i: nat, ts: seq<Token>, ns: seq<Note>)
    requires i < |s| && Owes(ls, s, all, i, ts, ns)
    ensures var r := Next(ls, s, i); Owes(ls, s, all, r.end, ts + Made(s, i, r), ns + r.notes)
  {
    var r := Next(ls, s, i);
    Regroup(ts, Made(s, i, r), Lex(ls, s, r.end).tokens);
    Regroup(ns, r.notes, Lex(ls, s, r.end).notes);
  }

  lemma Regroup<T>(a: seq<T>, b: seq<T>, c: seq<T>)
    ensures a + (b + c) == (a + b) + c
  {
  }

  class Lexer {
    const letters: Letters
    const source: string
    var pos: nat
    var tokens: seq<Token>
    var notes: seq<Note>

    ghost predicate Within()
      reads this
    {
      pos <= |source|
    }

    /** From `start` a scan was made, its reports and its token appended. */
    ghost predicate Did(start: nat, ts: seq<Token>, ns: seq<Note>, r: Scan)
      reads this
    {
      start <= r.end == pos <= |source| && notes == ns + r.notes && tokens == ts + Made(source, start, r)
    }

    /** A leading BOM is reported and dropped, CRLF becomes LF. */
    constructor (letters: Letters, text: string)
      ensures pos == 0 && tokens == [] && this.letters == letters
      ensures source == Normal(text)
      ensures notes == if Is(text, 0, BOM) then [Note(BomRejected, 0, 1)] else []
    {
      this.letters := letters;
      pos, tokens, notes := 0, [], [];
      if |text| > 0 && text[0] == BOM {
        notes := [Note(BomRejected, 0, 1)];
        source := Unix(text[1..]);
      } else {
        source := Unix(text);
      }
    }

    method Emit(kind: Kind, start: nat)
      requires start <= pos <= |source|
      modifies this`tokens
      ensures tokens == old(tokens) + [Token(kind, source[start..pos], start, pos)]
    {
      tokens := tokens + [Token(kind, source[start..pos], start, pos)];
    }

    method Run()
      requires Within()
      modifies this
      ensures
        var out := Lex(letters, source, old(pos));
        notes == old(notes) + out.notes && tokens == old(tokens) + out.tokens + [Token(Eof, "", |source|, |source|)]
    {
      Pump();
      assert source[pos..pos] == "";
      Emit(Eof, pos);
    }

    method Pump()
      requires Within()
      modifies this
      ensures var out := Lex(letters, source, old(pos)); notes == old(notes) + out.notes && tokens == old(tokens) + out.tokens
      ensures pos == |source|
    {
      ghost var out := Lex(letters, source, pos);
      ghost var all := Out(tokens + out.tokens, notes + out.notes);
      while pos < |source|
        invariant Within() && Owes(letters, source, all, pos, tokens, notes)
        decreases |source| - pos
      {
        ghost var i, ts, ns := pos, tokens, notes;
        Step();
        LexStep(letters, source, all, i, ts, ns);
      }
      assert tokens + [] == tokens && notes + [] == notes;
    }

    method Step()
      requires pos < |source|
      modifies this
      ensures Did(old(pos), old(tokens), old(notes), Next(letters, source, old(pos)))
    {
      var c := source[pos];
      if c == ' ' || c == '\t' {
        LexSpace();
      } else if c == '\n' {
        pos := pos + 1;
        Emit(Newline, pos - 1);
      } else if c == '/' && Is(source, pos + 1, '/') {
        LexLineComment();
      } else if c == '/' && Is(source, pos + 1, '*') {
        LexBlockComment();
      } else {
        if c == 'r' {
          var raw := TryLexRawString();
          if raw { return; }
        }
        if c == 'b' && Is(source, pos + 1, '"') {
          LexByteString();
        } else if StartsAt(source, pos, "html\"") {
          LexHtml();
        } else if c == '"' {
          LexString();
        } else if c == '\'' {
          LexChar();
        } else if Digit(c) {
          LexNumber();
        } else if NameStart(letters, c) {
          LexName();
        } else {
          LexPunct();
        }
      }
    }

    method LexSpace()
      requires Is(source, pos, ' ') || Is(source, pos, '\t')
      modifies this
      ensures Did(old(pos), old(tokens), old(notes), Scan(Some(Whitespace), SpaceEnd(source, old(pos) + 1), []))
    {
      var start := pos;
      while pos < |source| && (source[pos] == ' ' || source[pos] == '\t')
        invariant start <= pos <= |source| && SpaceEnd(source, pos) == SpaceEnd(source, start + 1)
        modifies this`pos
      {
        pos := pos + 1;
      }
      Emit(Whitespace, start);
    }

    /** Up to the first `c`. */
    method SkipUntil(c: char)
      requires Within()
      modifies this`pos
      ensures pos == Until(source, old(pos), c)
    {
      while pos < |source| && source[pos] != c
        invariant pos <= |source| && Until(source, pos, c) == Until(source, old(pos), c)
      {
        pos := pos + 1;
      }
    }

    method LexLineComment()
      requires Is(source, pos, '/') && Is(source, pos + 1, '/')
      modifies this
      ensures Did(old(pos), old(tokens), old(notes), Comment(source, old(pos)))
    {
      var start, doc := pos, IsDoc(source, pos);
      pos := pos + (if doc then 3 else 2);
      SkipUntil('\n');
      Emit(if doc then DocComment else LineComment, start);
    }

    /** Block comments nest. */
    method LexBlockComment()
      requires Is(source, pos, '/') && Is(source, pos + 1, '*')
      modifies this
      ensures Did(old(pos), old(tokens), old(notes), Block(source, old(pos)))
    {
      var start := pos;
      pos := pos + 2;
      var depth: nat := 1;
      while pos < |source| && depth > 0
        invariant start + 2 <= pos <= |source| && BlockEnd(source, pos, depth) == BlockEnd(source, start + 2, 1)
        decreases |source| - pos
        modifies this`pos
      {
        if source[pos] == '/' && Is(source, pos + 1, '*') {
          pos, depth := pos + 2, depth + 1;
        } else if source[pos] == '*' && Is(source, pos + 1, '/') {
          pos, depth := pos + 2, depth - 1;
        } else {
          pos := pos + 1;
        }
      }
      if depth != 0 { notes := notes + [Note(UnterminatedComment, start, pos)]; }
      Emit(BlockComment, start);
    }

    /** What follows a backslash. */
    method SkipEscape()
      requires Within()
      modifies this`pos
      ensures pos == EscapeEnd(source, old(pos))
    {
      if pos < |source| {
        var esc := source[pos];
        pos := pos + 1;
        if esc == 'x' {
          if DigitAt(Hex, source, pos) { pos := pos + 1; }
          if DigitAt(Hex, source, pos) { pos := pos + 1; }
        } else if esc == 'u' && Is(source, pos, OPEN) {
          pos := pos + 1;
          SkipUntil(CLOSE);
          if Is(source, pos, CLOSE) { pos := pos + 1; }
        }
      }
    }

    /** The token of a quoted form, reported when its end is missing. */
    method EmitQuoted(kind: Kind, start: nat, closed: bool)
      requires start <= pos <= |source|
      modifies this`tokens, this`notes
      ensures Did(start, old(tokens), old(notes), Quoted(kind, start, (pos, closed)))
    {
      if !closed { notes := notes + [Note(UnterminatedString, start, pos)]; }
      Emit(kind, start);
    }

    method LexString()
      requires Is(source, pos, '"')
      modifies this
      ensures Did(old(pos), old(tokens), old(notes), Quoted(StringLit, old(pos), StringEnd(source, old(pos) + 1)))
    {
      var start := pos;
      pos := pos + 1;
      while pos < |source|
        invariant start < pos <= |source| && StringEnd(source, pos) == StringEnd(source, start + 1)
        invariant tokens == old(tokens) && notes == old(notes)
        decreases |source| - pos
      {
        if source[pos] == '"' {
          pos := pos + 1;
          EmitQuoted(StringLit, start, true);
          return;
        }
        pos := pos + 1;
        if source[pos - 1] == '\\' { SkipEscape(); }
      }
      EmitQuoted(StringLit, start, false);
    }

    /** `r`, any number of hashes, and a quote; otherwise nothing is taken. */
    method TryLexRawString() returns (raw: bool)
      requires Is(source, pos, 'r')
      modifies this
      ensures raw == RawOpens(source, old(pos))
      ensures raw ==> Did(old(pos), old(tokens), old(notes), Raw(source, old(pos)))
      ensures !raw ==> pos == old(pos) && tokens == old(tokens) && notes == old(notes)
    {
      var start := pos;
      pos := pos + 1;
      while pos < |source| && source[pos] == '#'
        invariant start < pos <= |source| && HashesEnd(source, pos) == HashesEnd(source, start + 1)
        modifies this`pos
      {
        pos := pos + 1;
      }
      if !Is(source, pos, '"') {
        pos := start;
        return false;
      }
      pos := pos + 1;
      LexRawBody(start, "\"" + Hashes(pos - 1 - (start + 1)));
      return true;
    }

    /** To the quote with as many hashes as it was opened with. */
    method LexRawBody(start: nat, stop: string)
      requires start <= pos <= |source|
      modifies this
      ensures Did(start, old(tokens), old(notes), Quoted(RawStringLit, start, RawEnd(source, old(pos), stop)))
    {
      ghost var first := pos;
      while pos < |source|
        invariant first <= pos <= |source| && RawEnd(source, pos, stop) == RawEnd(source, first, stop)
        invariant tokens == old(tokens) && notes == old(notes)
        decreases |source| - pos
      {
        if StartsAt(source, pos, stop) {
          pos := pos + |stop|;
          EmitQuoted(RawStringLit, start, true);
          return;
        }
        pos := pos + 1;
      }
      EmitQuoted(RawStringLit, start, false);
    }

    method LexByteString()
      requires Is(source, pos, 'b') && Is(source, pos + 1, '"')
      modifies this
      ensures Did(old(pos), old(tokens), old(notes), Quoted(ByteStringLit, old(pos), ByteEnd(source, old(pos) + 2)))
    {
      var start := pos;
      pos := pos + 2;
      while pos < |source|
        invariant start + 2 <= pos <= |source| && ByteEnd(source, pos) == ByteEnd(source, start + 2)
        invariant tokens == old(tokens) && notes == old(notes)
        decreases |source| - pos
      {
        if source[pos] == '"' {
          pos := pos + 1;
          EmitQuoted(ByteStringLit, start, true);
          return;
        }
        pos := if source[pos] == '\\' then Skip(source, pos + 1) else pos + 1;
      }
      EmitQuoted(ByteStringLit, start, false);
    }

    /** The closing quote counts only outside braces. */
    method LexHtml()
      requires StartsAt(source, pos, "html\"")
      modifies this
      ensures Did(old(pos), old(tokens), old(notes), Quoted(HtmlLit, old(pos), HtmlEnd(source, old(pos) + 5, 0)))
    {
      var start := pos;
      pos := pos + 5;
      var depth: nat := 0;
      while pos < |source|
        invariant start + 5 <= pos <= |source| && HtmlEnd(source, pos, depth) == HtmlEnd(source, start + 5, 0)
        invariant tokens == old(tokens) && notes == old(notes)
        decreases |source| - pos
      {
        var c := source[pos];
        if c == '"' && depth == 0 {
          pos := pos + 1;
          EmitQuoted(HtmlLit, start, true);
          return;
        }
        if c == OPEN { depth := depth + 1; }
        if c == CLOSE && depth > 0 { depth := depth - 1; }
        pos := if c == '\\' then Skip(source, pos + 1) else pos + 1;
      }
      EmitQuoted(HtmlLit, start, false);
    }

    method LexChar()
      requires Is(source, pos, '\'')
      modifies this
      ensures Did(old(pos), old(tokens), old(notes), CharScan(source, old(pos)))
    {
      var start := pos;
      pos := pos + 1;
      if Is(source, pos, '\\') {
        pos := pos + 1;
        SkipEscape();
      } else if pos < |source| && source[pos] != '\'' {
        pos := pos + 1;
      }
      if Is(source, pos, '\'') {
        pos := pos + 1;
      } else {
        notes := notes + [Note(BadChar, start, pos)];
      }
      Emit(CharLit, start);
    }

    /** Digits and single underscores; a trailing underscore is reported. */
    method ConsumeDigits(b: Base)
      requires Within()
      modifies this`pos, this`notes
      ensures var d := DigitsEnd(b, source, old(pos), false, false); pos == d.0 && notes == old(notes) + DigitNote(d)
    {
      var some, under := false, false;
      while pos < |source| && (DigitOf(b, source[pos]) || (source[pos] == '_' && some && !under))
        invariant old(pos) <= pos <= |source| && (under ==> pos > 0)
        invariant DigitsEnd(b, source, pos, some, under) == DigitsEnd(b, source, old(pos), false, false)
        modifies this`pos
      {
        under := !DigitOf(b, source[pos]);
        some := true;
        pos := pos + 1;
      }
      if under { notes := notes + [Note(BadNumber, pos - 1, pos)]; }
    }

    /** The first suffix of the list that stands here by itself is taken. */
    method TrySuffix(sufs: seq<string>) returns (found: bool)
      requires Within()
      modifies this`pos
      ensures
        var r := SuffixEnd(letters, source, old(pos), sufs);
        found == r.Some? && pos == if r.Some? then r.value else old(pos)
    {
      var k := 0;
      while k < |sufs|
        invariant 0 <= k <= |sufs| && pos == old(pos)
        invariant SuffixEnd(letters, source, pos, sufs[k..]) == SuffixEnd(letters, source, pos, sufs)
      {
        assert sufs[k..][1..] == sufs[k + 1..];
        if StartsAt(source, pos, sufs[k]) && !MoreAt(letters, source, pos + |sufs[k]|) {
          pos := pos + |sufs[k]|;
          return true;
        }
        k := k + 1;
      }
      return false;
    }

    method MaybeIntSuffix()
      requires Within()
      modifies this`pos
      ensures pos == IntSuffixEnd(letters, source, old(pos))
    {
      if Is(source, pos, 'u') || Is(source, pos, 'i') {
        pos := pos + 1;
        var found := TrySuffix(WIDTHS);
        if !found { pos := pos - 1; }
      }
    }

    method LexNumber()
      requires pos < |source| && Digit(source[pos])
      modifies this
      ensures Did(old(pos), old(tokens), old(notes), Number(letters, source, old(pos)))
    {
      if source[pos] == '0' && (Is(source, pos + 1, 'x') || Is(source, pos + 1, 'X')) {
        LexBased(Hex);
      } else if source[pos] == '0' && (Is(source, pos + 1, 'o') || Is(source, pos + 1, 'O')) {
        LexBased(Oct);
      } else if source[pos] == '0' && (Is(source, pos + 1, 'b') || Is(source, pos + 1, 'B')) {
        LexBased(Bin);
      } else {
        LexDecimal();
      }
    }

    method LexBased(b: Base)
      requires pos + 2 <= |source|
      modifies this
      ensures Did(old(pos), old(tokens), old(notes), Based(letters, source, old(pos) + 2, b))
    {
      var start := pos;
      pos := pos + 2;
      ConsumeDigits(b);
      MaybeIntSuffix();
      Emit(IntLit, start);
    }

    method LexDecimal()
      requires pos < |source| && Digit(source[pos])
      modifies this
      ensures Did(old(pos), old(tokens), old(notes), Decimal(letters, source, old(pos)))
    {
      var start := pos;
      var kind := ReadDecimal();
      Emit(kind, start);
    }

    method ReadDecimal() returns (kind: Kind)
      requires pos < |source| && Digit(source[pos])
      modifies this`pos, this`notes
      ensures var r := Decimal(letters, source, old(pos)); kind == r.kind.value && pos == r.end && notes == old(notes) + r.notes
    {
      ghost var i, ns := pos, notes;
      ConsumeDigits(Dec);
      ghost var d := DigitsEnd(Dec, source, i, false, false);
      var fraction := ConsumeFraction();
      ghost var f := FractionEnd(source, d.0);
      var exponent := ConsumeExponent();
      Regroup(ns, DigitNote(d), DigitNote(f));
      Regroup(ns, DigitNote(d) + DigitNote(f), DigitNote(ExponentEnd(source, f.0)));
      if fraction || exponent {
        FloatSuffix();
        kind := FloatLit;
      } else {
        kind := IntKind();
      }
    }

    method ConsumeFraction() returns (found: bool)
      requires Within()
      modifies this`pos, this`notes
      ensures found == HasFraction(source, old(pos))
      ensures var f := FractionEnd(source, old(pos)); pos == f.0 && notes == old(notes) + DigitNote(f)
    {
      found := HasFraction(source, pos);
      if found {
        pos := pos + 1;
        ConsumeDigits(Dec);
      }
    }

    method ConsumeExponent() returns (found: bool)
      requires Within()
      modifies this`pos, this`notes
      ensures found == HasExponent(source, old(pos))
      ensures var x := ExponentEnd(source, old(pos)); pos == x.0 && notes == old(notes) + DigitNote(x)
    {
      found := HasExponent(source, pos);
      if found {
        pos := SignEnd(source, pos + 1);
        ConsumeDigits(Dec);
      }
    }

    /** A size, a duration, or an integer with an optional width. */
    method IntKind() returns (kind: Kind)
      requires Within()
      modifies this`pos
      ensures (kind, pos) == IntKindEnd(letters, source, old(pos))
    {
      var size := TrySuffix(SIZES);
      if size { return SizeLit; }
      var duration := TrySuffix(DURATIONS);
      if duration { return DurationLit; }
      MaybeIntSuffix();
      return IntLit;
    }

    method FloatSuffix()
      requires Within()
      modifies this`pos
      ensures pos == FloatSuffixEnd(source, old(pos))
    {
      if Is(source, pos, 'f') {
        var save := pos;
        pos := pos + 1;
        while DigitAt(Dec, source, pos)
          invariant save < pos <= |source| && DigitRun(source, pos) == DigitRun(source, save + 1)
          decreases |source| - pos
        {
          pos := pos + 1;
        }
        var w := source[save + 1..pos];
        if w != "32" && w != "64" { pos := save; }
      }
    }

    method LexName()
      requires pos < |source|
      modifies this
      ensures Did(old(pos), old(tokens), old(notes), Name(letters, source, old(pos)))
    {
      var start := pos;
      pos := pos + 1;
      while pos < |source| && NameMore(letters, source[pos])
        invariant start < pos <= |source| && NameEnd(letters, source, pos) == NameEnd(letters, source, start + 1)
        modifies this`pos
      {
        pos := pos + 1;
      }
      var text := source[start..pos];
      Emit(if text == "_" then Underscore else if text in KEYWORDS then Keyword else Ident, start);
    }

    /** The longest match first; a character with none is reported. */
    method LexPunct()
      requires pos < |source|
      modifies this
      ensures Did(old(pos), old(tokens), old(notes), PunctOrUnknown(source, old(pos)))
    {
      var start := pos;
      if pos + 3 <= |source| && source[pos..pos + 3] in THREES {
        pos := pos + 3;
      } else if pos + 2 <= |source| && source[pos..pos + 2] in TWOS {
        pos := pos + 2;
      } else if source[pos] in ONES {
        pos := pos + 1;
      }
      if pos > start {
        Emit(Punct, start);
      } else {
        pos := pos + 1;
        notes := notes + [Note(UnknownChar, start, pos)];
      }
    }
  }

  /** Tokens and unknown characters tile the source; the tokens' texts make it up
      exactly when no character was unknown. */
  ghost predicate Accounts(source: string, ts: seq<Token>, notes: seq<Note>) {
    && Tiled(ts, Unknowns(notes), 0, |source|) && Slices(source, ts)
    && (Texts(ts) == source <==> Unknowns(notes) == [])
  }

  lemma LexAccounts(ls: Letters, s: string, before: seq<Note>)
    requires Unknowns(before) == []
    ensures var out := Lex(ls, s, 0); Accounts(s, out.tokens, before + out.notes)
  {
    var out := Lex(ls, s, 0);
    LexTiles(ls, s, 0);
    UnknownsJoin(before, out.notes);
    assert Unknowns(before + out.notes) == Unknowns(out.notes);
    TextsRebuild(s, out.tokens, Unknowns(out.notes), 0);
    assert s[0..] == s;
  }

  /** What is reported before the first token. */
  function Preamble(text: string): seq<Note> {
    if Is(text, 0, BOM) then [Note(BomRejected, 0, 1)] else []
  }

  /** `lex`, on every text. Everything but the final token accounts for the normalised
      source, each token is the longest there is where it stands, of the one kind it can
      have, and the reports are those of the tokens and of the unknown characters. */
  method LexText(letters: Letters, text: string) returns (tokens: seq<Token>, notes: seq<Note>)
    ensures |tokens| > 0 && tokens[|tokens| - 1] == Token(Eof, "", |Normal(text)|, |Normal(text)|)
    ensures Accounts(Normal(text), tokens[..|tokens| - 1], notes)
    ensures Preamble(text) <= notes && Lexed(letters, Normal(text), 0, tokens[..|tokens| - 1], notes[|Preamble(text)|..])
  {
    var lexer := new Lexer(letters, text);
    LexAccounts(letters, lexer.source, lexer.notes);
    LexIsLexed(letters, lexer.source, 0);
    lexer.Run();
    tokens, notes := lexer.tokens, lexer.notes;
    assert tokens[..|tokens| - 1] == Lex(letters, lexer.source, 0).tokens;
    assert notes[|Preamble(text)|..] == Lex(letters, lexer.source, 0).notes;
  }
}
