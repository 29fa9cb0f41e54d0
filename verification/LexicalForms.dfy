/** What each kind of token looks like, as forms on a span of the source and without
    the lexer's scans: the lexer is right when each token has the form of its kind and
    no token of any kind could have been longer. */
module LexicalForms {
  import opened Lexical

  // ----- characters -----

  /** The digits of each base, one by one. */
  lemma Characters(c: char)
    ensures DigitOf(Dec, c) <==> c in "0123456789"
    ensures DigitOf(Hex, c) <==> c in "0123456789abcdefABCDEF"
    ensures DigitOf(Oct, c) <==> c in "01234567"
    ensures DigitOf(Bin, c) <==> c in "01"
  {
  }

  // ----- comments -----

  /** Two slashes and the rest of a line, or a part of it. */
  predicate Slashes(s: string, i: nat, j: nat) {
    i + 2 <= j <= |s| && s[i] == '/' && s[i + 1] == '/' && forall p :: i <= p < j ==> s[p] != '\n'
  }

  predicate ThreeSlashes(s: string, i: nat, j: nat)
    requires j <= |s|
  {
    i + 3 <= j && s[i + 2] == '/' && (i + 3 == j || s[i + 3] != '/')
  }

  predicate CommentOpens(s: string, i: nat) { Is(s, i, '/') && Is(s, i + 1, '*') }

  predicate CommentCloses(s: string, i: nat) { Is(s, i, '*') && Is(s, i + 1, '/') }

  /** A block comment: whatever is opened inside is closed inside. */
  predicate CommentSpan(s: string, i: nat, j: nat)
    decreases j - i, 0
  {
    i + 4 <= j <= |s| && CommentOpens(s, i) && CommentCloses(s, j - 2) && BodySpan(s, i + 2, j - 2)
  }

  predicate BodySpan(s: string, i: nat, j: nat)
    requires i <= j <= |s|
    decreases j - i, 1
  {
    if i == j then true
    else if CommentOpens(s, i) then exists k :: i < k <= j && CommentSpan(s, i, k) && BodySpan(s, k, j)
    else !CommentCloses(s, i) && BodySpan(s, i + 1, j)
  }

  // ----- strings -----

  predicate BraceEscape(s: string, i: nat) { Is(s, i, '\\') && Is(s, i + 1, 'u') && Is(s, i + 2, OPEN) }

  /** From the backslash of `\u{` to the first closing brace. */
  predicate BraceSpan(s: string, i: nat, j: nat) {
    i + 4 <= j <= |s| && BraceEscape(s, i) && s[j - 1] == CLOSE && forall p :: i + 3 <= p < j - 1 ==> s[p] != CLOSE
  }

  /** Characters that are neither quotes nor backslashes, and escapes: a backslash and
      one character, or `\u{...}`, in which quotes do not count. */
  predicate StringItems(s: string, i: nat, j: nat)
    requires i <= j <= |s|
    decreases j - i
  {
    if i == j then true
    else if BraceEscape(s, i) then exists k :: i < k <= j && BraceSpan(s, i, k) && StringItems(s, k, j)
    else if s[i] == '\\' then i + 2 <= j && StringItems(s, i + 2, j)
    else s[i] != '"' && StringItems(s, i + 1, j)
  }

  predicate ByteItems(s: string, i: nat, j: nat)
    requires i <= j <= |s|
    decreases j - i
  {
    if i == j then true
    else if s[i] == '\\' then i + 2 <= j && ByteItems(s, i + 2, j)
    else s[i] != '"' && ByteItems(s, i + 1, j)
  }

  /** A braced part of a template; quotes inside do not count. */
  predicate BracedSpan(s: string, i: nat, j: nat)
    decreases j - i, 0
  {
    i + 2 <= j <= |s| && s[i] == OPEN && s[j - 1] == CLOSE && BracedItems(s, i + 1, j - 1)
  }

  predicate BracedItems(s: string, i: nat, j: nat)
    requires i <= j <= |s|
    decreases j - i, 1
  {
    if i == j then true
    else if s[i] == '\\' then i + 2 <= j && BracedItems(s, i + 2, j)
    else if s[i] == OPEN then exists k :: i < k <= j && BracedSpan(s, i, k) && BracedItems(s, k, j)
    else s[i] != CLOSE && BracedItems(s, i + 1, j)
  }

  predicate HtmlItems(s: string, i: nat, j: nat)
    requires i <= j <= |s|
    decreases j - i
  {
    if i == j then true
    else if s[i] == '\\' then i + 2 <= j && HtmlItems(s, i + 2, j)
    else if s[i] == OPEN then exists k :: i < k <= j && BracedSpan(s, i, k) && HtmlItems(s, k, j)
    else s[i] != '"' && HtmlItems(s, i + 1, j)
  }

  /** `r`, `n` hashes and a quote. */
  predicate RawHead(s: string, i: nat, n: nat) {
    i + n + 2 <= |s| && s[i] == 'r' && s[i + n + 1] == '"' && forall p :: i < p <= i + n ==> s[p] == '#'
  }

  /** A quote and `n` hashes. */
  predicate RawTail(s: string, k: nat, n: nat) {
    k + n + 1 <= |s| && s[k] == '"' && forall p :: k < p <= k + n ==> s[p] == '#'
  }

  /** From the head to the first tail with as many hashes. */
  predicate RawSpan(s: string, i: nat, j: nat, n: nat) {
    && RawHead(s, i, n) && i + n + 2 + n + 1 <= j <= |s| && RawTail(s, j - n - 1, n)
    && forall k :: i + n + 2 <= k < j - n - 1 ==> !RawTail(s, k, n)
  }

  // ----- what has a beginning and an end -----

  predicate Delimited(k: Kind) {
    k == BlockComment || k == StringLit || k == RawStringLit || k == ByteStringLit || k == HtmlLit
  }

  predicate Opens(k: Kind, s: string, i: nat)
    requires Delimited(k)
  {
    match k
    case BlockComment => CommentOpens(s, i)
    case StringLit => Is(s, i, '"')
    case RawStringLit => exists n :: 0 <= n <= |s| && RawHead(s, i, n)
    case ByteStringLit => Is(s, i, 'b') && Is(s, i + 1, '"')
    case HtmlLit => Is(s, i, 'h') && Is(s, i + 1, 't') && Is(s, i + 2, 'm') && Is(s, i + 3, 'l') && Is(s, i + 4, '"')
  }

  predicate Closed(k: Kind, s: string, i: nat, j: nat)
    requires Delimited(k)
  {
    j <= |s| && Opens(k, s, i)
    && match k
       case BlockComment => CommentSpan(s, i, j)
       case StringLit => i + 2 <= j && s[j - 1] == '"' && StringItems(s, i + 1, j - 1)
       case RawStringLit => exists n :: 0 <= n <= |s| && RawSpan(s, i, j, n)
       case ByteStringLit => i + 3 <= j && s[j - 1] == '"' && ByteItems(s, i + 2, j - 1)
       case HtmlLit => i + 6 <= j && s[j - 1] == '"' && HtmlItems(s, i + 5, j - 1)
  }

  /** Closed, or running to the end of a source in which it is never closed. */
  predicate DelimitedFits(k: Kind, s: string, i: nat, j: nat)
    requires Delimited(k)
  {
    Closed(k, s, i, j) || (Opens(k, s, i) && j == |s| && forall m :: 0 <= m <= |s| ==> !Closed(k, s, i, m))
  }

  // ----- character literals -----

  /** Nothing, one character, or an escape; the last braces may be missing at the end of
      the source. */
  predicate CharBody(s: string, i: nat, b: nat)
    requires i <= b <= |s|
  {
    || b == i
    || (b == i + 1 && s[i] != '\'' && (s[i] == '\\' ==> b == |s|))
    || (b == i + 2 && s[i] == '\\')
    || (b == i + 3 && s[i] == '\\' && s[i + 1] == 'x' && DigitOf(Hex, s[i + 2]))
    || (b == i + 4 && s[i] == '\\' && s[i + 1] == 'x' && DigitOf(Hex, s[i + 2]) && DigitOf(Hex, s[i + 3]))
    || BraceSpan(s, i, b)
    || (b == |s| && BraceEscape(s, i) && forall p :: i + 3 <= p < b ==> s[p] != CLOSE)
  }

  predicate CharClosed(s: string, i: nat, j: nat) {
    i + 2 <= j <= |s| && s[i] == '\'' && s[j - 1] == '\'' && CharBody(s, i + 1, j - 1)
  }

  predicate CharFits(s: string, i: nat, j: nat) {
    CharClosed(s, i, j) || (i < j <= |s| && s[i] == '\'' && CharBody(s, i + 1, j))
  }

  // ----- numbers -----

  /** The second of two underscores. */
  predicate DoubleMark(s: string, p: nat) { 0 < p < |s| && s[p] == '_' && s[p - 1] == '_' }

  /** Nothing, or a digit and then digits and single underscores. */
  predicate Digits(b: Base, s: string, i: nat, j: nat) {
    i <= j <= |s|
    && (i < j ==> DigitOf(b, s[i]))
    && forall p :: i <= p < j ==> (DigitOf(b, s[p]) || s[p] == '_') && !DoubleMark(s, p)
  }

  /** A word of the list that no name character follows. */
  predicate Suffix(ls: Letters, s: string, i: nat, j: nat, words: seq<string>) {
    i < j <= |s| && s[i..j] in words && !MoreAt(ls, s, j)
  }

  predicate IntSuffix(ls: Letters, s: string, i: nat, j: nat) {
    (Is(s, i, 'u') || Is(s, i, 'i')) && Suffix(ls, s, i + 1, j, WIDTHS)
  }

  predicate Fraction(s: string, i: nat, j: nat) { Is(s, i, '.') && i + 1 < j && Digits(Dec, s, i + 1, j) }

  predicate Exponent(s: string, i: nat, j: nat) {
    (Is(s, i, 'e') || Is(s, i, 'E'))
    && ((i + 1 < j && Digits(Dec, s, i + 1, j))
        || ((Is(s, i + 1, '+') || Is(s, i + 1, '-')) && i + 2 < j && Digits(Dec, s, i + 2, j)))
  }

  predicate FloatSuffix(s: string, i: nat, j: nat) {
    j == i + 3 && j <= |s| && (s[i..j] == "f32" || s[i..j] == "f64") && !DigitAt(Dec, s, j)
  }

  /** A zero and the letter of a base. */
  predicate BaseHead(s: string, i: nat, b: Base) {
    Is(s, i, '0')
    && match b
       case Dec => false
       case Hex => Is(s, i + 1, 'x') || Is(s, i + 1, 'X')
       case Oct => Is(s, i + 1, 'o') || Is(s, i + 1, 'O')
       case Bin => Is(s, i + 1, 'b') || Is(s, i + 1, 'B')
  }

  predicate BasedDigits(s: string, i: nat, m: nat, b: Base) { BaseHead(s, i, b) && Digits(b, s, i + 2, m) }

  predicate BasedInt(ls: Letters, s: string, i: nat, j: nat, b: Base) {
    exists m :: 0 <= m <= |s| && BasedDigits(s, i, m, b) && (j == m || IntSuffix(ls, s, m, j))
  }

  /** The digits of a decimal number, up to `m`. */
  predicate Whole(s: string, i: nat, m: nat) {
    i < m && Digits(Dec, s, i, m) && !BaseHead(s, i, Hex) && !BaseHead(s, i, Oct) && !BaseHead(s, i, Bin)
  }

  predicate DecimalInt(ls: Letters, s: string, i: nat, j: nat) {
    exists m :: i < m <= |s| && Whole(s, i, m) && (j == m || IntSuffix(ls, s, m, j))
  }

  predicate Measured(ls: Letters, s: string, i: nat, j: nat, units: seq<string>) {
    exists m :: i < m <= |s| && Whole(s, i, m) && Suffix(ls, s, m, j, units)
  }

  /** A fraction, an exponent, or both. */
  predicate Scaled(s: string, m: nat, x: nat) {
    Fraction(s, m, x) || Exponent(s, m, x) || exists f :: m < f <= |s| && Fraction(s, m, f) && Exponent(s, f, x)
  }

  predicate Float(s: string, i: nat, j: nat) {
    exists m, x :: i < m < x <= |s| && Whole(s, i, m) && Scaled(s, m, x) && (j == x || FloatSuffix(s, x, j))
  }

  // ----- names -----

  predicate NameText(ls: Letters, s: string, i: nat, j: nat) {
    i < j <= |s| && NameStart(ls, s[i]) && forall p :: i < p < j ==> NameMore(ls, s[p])
  }

  // ----- all of them -----

  /** The span has the form of the kind. */
  ghost predicate Fits(ls: Letters, k: Kind, s: string, i: nat, j: nat) {
    i < j <= |s|
    && match k
       case Whitespace => forall p :: i <= p < j ==> s[p] == ' ' || s[p] == '\t'
       case Newline => j == i + 1 && s[i] == '\n'
       case LineComment => Slashes(s, i, j) && !ThreeSlashes(s, i, j)
       case DocComment => Slashes(s, i, j) && ThreeSlashes(s, i, j)
       case CharLit => CharFits(s, i, j)
       case IntLit => DecimalInt(ls, s, i, j) || exists b :: BasedInt(ls, s, i, j, b)
       case FloatLit => Float(s, i, j)
       case SizeLit => Measured(ls, s, i, j, SIZES)
       case DurationLit => Measured(ls, s, i, j, DURATIONS)
       case Underscore => NameText(ls, s, i, j) && s[i..j] == "_"
       case Keyword => NameText(ls, s, i, j) && s[i..j] != "_" && s[i..j] in KEYWORDS
       case Ident => NameText(ls, s, i, j) && s[i..j] != "_" && s[i..j] !in KEYWORDS
       case Punct => IsPunct(s[i..j])
       case Eof => false
       case _ => DelimitedFits(k, s, i, j)
  }

  /** It has, and nothing that starts here is longer or of another kind. */
  ghost predicate Best(ls: Letters, k: Kind, s: string, i: nat, j: nat) {
    Fits(ls, k, s, i, j) && forall k', j': nat :: Fits(ls, k', s, i, j') ==> j' <= j && (j' == j ==> k' == k)
  }

  ghost predicate NothingFits(ls: Letters, s: string, i: nat) { forall k, j: nat :: !Fits(ls, k, s, i, j) }

  // ----- what is reported -----

  /** The base in which a number is written. */
  function BaseAt(s: string, i: nat): Base {
    if BaseHead(s, i, Hex) then Hex else if BaseHead(s, i, Oct) then Oct else if BaseHead(s, i, Bin) then Bin else Dec
  }

  /** An underscore that no digit follows. */
  function BadMarks(b: Base, s: string, i: nat, j: nat): seq<Note>
    decreases j - i
  {
    if i >= j then []
    else (if Is(s, i, '_') && !DigitAt(b, s, i + 1) then [Note(BadNumber, i, i + 1)] else []) + BadMarks(b, s, i + 1, j)
  }

  function Faults(k: Kind, s: string, i: nat, j: nat): seq<Note> {
    match k
    case BlockComment => if Closed(k, s, i, j) then [] else [Note(UnterminatedComment, i, j)]
    case CharLit => if CharClosed(s, i, j) then [] else [Note(BadChar, i, j)]
    case IntLit => BadMarks(BaseAt(s, i), s, i, j)
    case FloatLit => BadMarks(BaseAt(s, i), s, i, j)
    case SizeLit => BadMarks(BaseAt(s, i), s, i, j)
    case DurationLit => BadMarks(BaseAt(s, i), s, i, j)
    case _ => if Delimited(k) && !Closed(k, s, i, j) then [Note(UnterminatedString, i, j)] else []
  }

  // ----- the whole source -----

  /** From `a` on the source is these tokens, each the best there is where it stands,
      and characters with which nothing begins; and these are the reports. */
  ghost predicate Lexed(ls: Letters, s: string, a: nat, ts: seq<Token>, ns: seq<Note>)
    decreases |s| - a
  {
    if a >= |s| then a == |s| && ts == [] && ns == []
    else if ts != [] && ts[0].start == a then
      var t := ts[0];
      && Best(ls, t.kind, s, a, t.end) && t.text == s[a..t.end]
      && var fs := Faults(t.kind, s, a, t.end);
         fs <= ns && Lexed(ls, s, t.end, ts[1..], ns[|fs|..])
    else
      NothingFits(ls, s, a) && ns != [] && ns[0] == Note(UnknownChar, a, a + 1) && Lexed(ls, s, a + 1, ts, ns[1..])
  }

  /** There is one way to lex a source. */
  lemma {:induction false} LexedOnce(ls: Letters, s: string, a: nat, ts: seq<Token>, ns: seq<Note>, ts': seq<Token>, ns': seq<Note>)
    requires Lexed(ls, s, a, ts, ns) && Lexed(ls, s, a, ts', ns')
    ensures ts == ts' && ns == ns'
    decreases |s| - a
  {
    if a < |s| {
      if ts != [] && ts[0].start == a {
        var t := ts[0];
        assert Fits(ls, t.kind, s, a, t.end);
        assert ts' != [] && ts'[0].start == a;
        assert Fits(ls, ts'[0].kind, s, a, ts'[0].end);
        var fs := Faults(t.kind, s, a, t.end);
        LexedOnce(ls, s, t.end, ts[1..], ns[|fs|..], ts'[1..], ns'[|fs|..]);
        assert ns == fs + ns[|fs|..] && ns' == fs + ns'[|fs|..];
        assert ts == [t] + ts[1..] && ts' == [t] + ts'[1..];
      } else {
        LexedOnce(ls, s, a + 1, ts, ns[1..], ts', ns'[1..]);
        assert ns == [ns[0]] + ns[1..] && ns' == [ns'[0]] + ns'[1..];
      }
    }
  }
}
