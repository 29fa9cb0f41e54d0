/** The lexer of the Python front end on values: what the token at a position is, and
    how the tokens tile the source. */
module Lexical {
  import opened Wrappers

  datatype Kind =
    | Whitespace | Newline | LineComment | DocComment | BlockComment
    | StringLit | RawStringLit | ByteStringLit | HtmlLit | CharLit
    | IntLit | FloatLit | SizeLit | DurationLit
    | Underscore | Keyword | Ident | Punct | Eof

  datatype Token = Token(kind: Kind, text: string, start: nat, end: nat)

  datatype Code = BomRejected | UnknownChar | UnterminatedComment | UnterminatedString | BadChar | BadNumber

  datatype Note = Note(code: Code, start: nat, end: nat)

  /** Which characters outside ASCII start and continue a name. */
  datatype Letters = Letters(start: char -> bool, more: char -> bool)

  const KEYWORDS: set<string> :=
    {"agent", "and", "arena", "as", "async", "await", "break", "budget", "cap", "const", "continue", "detach", "deinit",
     "derive", "dyn", "effect", "else", "enum", "extern", "fn", "for", "if", "impl", "import", "in", "init", "let", "loop",
     "match", "mod", "move", "mut", "on", "or", "panic", "protocol", "pub", "return", "run", "sandbox", "self", "Self",
     "spawn", "static", "struct", "supervisor", "task", "trait", "true", "false", "type", "union", "unsafe", "use",
     "where", "while", "with"}

  const SIZES: seq<string> := ["KiB", "MiB", "GiB", "B", "k", "M"]
  const DURATIONS: seq<string> := ["ns", "us", "ms", "s", "m", "h"]
  const WIDTHS: seq<string> := ["128", "size", "64", "32", "16", "8"]

  const THREES: set<string> := {"...", "..=", "::["}
  const TWOS: set<string> :=
    {"::", "..", "->", "=>", "==", "!=", "<=", ">=", "<<", ">>", "&&", "||", "+=", "-=", "*=", "/=", "%=", "&=", "|=", "^="}
  const ONES: set<char> :=
    {'(', ')', OPEN, CLOSE, '[', ']', ',', ';', ':', '.', '@', '#', '$', '?', '!', '&', '|', '^', '~', '=', '<', '>', '+',
     '-', '*', '/', '%'}

  const OPEN: char := "{"[0]
  const CLOSE: char := "}"[0]
  const BOM: char := 0xFEFF as char

  // ----- characters -----

  predicate Is(s: string, i: nat, c: char) { i < |s| && s[i] == c }

  predicate StartsAt(s: string, i: nat, p: string) { i + |p| <= |s| && s[i..i + |p|] == p }

  predicate Ascii(c: char) { c < (0x80 as char) }

  predicate Letter(c: char) { 'A' <= c <= 'Z' || 'a' <= c <= 'z' || c == '_' }

  predicate Digit(c: char) { '0' <= c <= '9' }

  predicate NameStart(ls: Letters, c: char) { Letter(c) || (!Ascii(c) && ls.start(c)) }

  predicate NameMore(ls: Letters, c: char) { Letter(c) || Digit(c) || (!Ascii(c) && ls.more(c)) }

  predicate MoreAt(ls: Letters, s: string, i: nat) { i < |s| && NameMore(ls, s[i]) }

  datatype Base = Dec | Hex | Oct | Bin

  predicate DigitOf(b: Base, c: char) {
    match b
    case Dec => Digit(c)
    case Hex => Digit(c) || 'a' <= c <= 'f' || 'A' <= c <= 'F'
    case Oct => '0' <= c <= '7'
    case Bin => c == '0' || c == '1'
  }

  predicate DigitAt(b: Base, s: string, i: nat) { i < |s| && DigitOf(b, s[i]) }

  // ----- where each scan ends -----

  function SpaceEnd(s: string, i: nat): (j: nat)
    requires i <= |s|
    ensures i <= j <= |s|
    decreases |s| - i
  {
    if Is(s, i, ' ') || Is(s, i, '\t') then SpaceEnd(s, i + 1) else i
  }

  /** Up to the first `c`. */
  function Until(s: string, i: nat, c: char): (j: nat)
    requires i <= |s|
    ensures i <= j <= |s| && (j < |s| ==> s[j] == c)
    decreases |s| - i
  {
    if i == |s| || s[i] == c then i else Until(s, i + 1, c)
  }

  function NameEnd(ls: Letters, s: string, i: nat): (j: nat)
    requires i <= |s|
    ensures i <= j <= |s|
    decreases |s| - i
  {
    if MoreAt(ls, s, i) then NameEnd(ls, s, i + 1) else i
  }

  /** The end of a nesting comment at this depth, and the depth that is left. */
  function BlockEnd(s: string, i: nat, depth: nat): (r: (nat, nat))
    requires i <= |s|
    ensures i <= r.0 <= |s|
    decreases |s| - i
  {
    if i == |s| || depth == 0 then (i, depth)
    else if Is(s, i, '/') && Is(s, i + 1, '*') then BlockEnd(s, i + 2, depth + 1)
    else if Is(s, i, '*') && Is(s, i + 1, '/') then BlockEnd(s, i + 2, depth - 1)
    else BlockEnd(s, i + 1, depth)
  }

  function HexEnd(s: string, i: nat): nat { if DigitAt(Hex, s, i) then i + 1 else i }

  function BraceEnd(s: string, i: nat): (j: nat)
    requires i <= |s|
    ensures i <= j <= |s|
  {
    var j := Until(s, i, CLOSE); if j < |s| then j + 1 else j
  }

  /** After a backslash: `x` with up to two hex digits, `u{..}`, or one character. */
  function EscapeEnd(s: string, i: nat): (j: nat)
    requires i <= |s|
    ensures i <= j <= |s|
  {
    if i == |s| then i
    else if s[i] == 'x' then HexEnd(s, HexEnd(s, i + 1))
    else if s[i] == 'u' && Is(s, i + 1, OPEN) then BraceEnd(s, i + 2)
    else i + 1
  }

  /** The end of a string and whether its quote was found. */
  function StringEnd(s: string, i: nat): (r: (nat, bool))
    requires i <= |s|
    ensures i <= r.0 <= |s|
    decreases |s| - i
  {
    if i == |s| then (i, false)
    else if s[i] == '\\' then StringEnd(s, EscapeEnd(s, i + 1))
    else if s[i] == '"' then (i + 1, true)
    else StringEnd(s, i + 1)
  }

  function Skip(s: string, i: nat): (j: nat)
    requires i <= |s|
    ensures i <= j <= |s|
  {
    if i < |s| then i + 1 else i
  }

  function ByteEnd(s: string, i: nat): (r: (nat, bool))
    requires i <= |s|
    ensures i <= r.0 <= |s|
    decreases |s| - i
  {
    if i == |s| then (i, false)
    else if s[i] == '\\' then ByteEnd(s, Skip(s, i + 1))
    else if s[i] == '"' then (i + 1, true)
    else ByteEnd(s, i + 1)
  }

  function HtmlEnd(s: string, i: nat, depth: nat): (r: (nat, bool))
    requires i <= |s|
    ensures i <= r.0 <= |s|
    decreases |s| - i
  {
    if i == |s| then (i, false)
    else if s[i] == '\\' then HtmlEnd(s, Skip(s, i + 1), depth)
    else if s[i] == OPEN then HtmlEnd(s, i + 1, depth + 1)
    else if s[i] == CLOSE then HtmlEnd(s, i + 1, if depth > 0 then depth - 1 else depth)
    else if s[i] == '"' && depth == 0 then (i + 1, true)
    else HtmlEnd(s, i + 1, depth)
  }

  function HashesEnd(s: string, i: nat): (j: nat)
    requires i <= |s|
    ensures i <= j <= |s|
    decreases |s| - i
  {
    if Is(s, i, '#') then HashesEnd(s, i + 1) else i
  }

  function Hashes(n: nat): (r: string)
    ensures |r| == n
  {
    seq(n, _ => '#')
  }

  function RawEnd(s: string, i: nat, stop: string): (r: (nat, bool))
    requires i <= |s|
    ensures i <= r.0 <= |s|
    decreases |s| - i
  {
    if i == |s| then (i, false) else if StartsAt(s, i, stop) then (i + |stop|, true) else RawEnd(s, i + 1, stop)
  }

  /** The inside of a character literal. */
  function CharEnd(s: string, i: nat): (j: nat)
    requires i <= |s|
    ensures i <= j <= |s|
  {
    if Is(s, i, '\\') then EscapeEnd(s, i + 1) else if i < |s| && s[i] != '\'' then i + 1 else i
  }

  /** Digits with single underscores between them, and whether the last one is an
      underscore. */
  function DigitsEnd(b: Base, s: string, i: nat, some: bool, under: bool): (r: (nat, bool))
    requires i <= |s|
    ensures i <= r.0 <= |s| && (r.1 ==> r.0 > 0 || under)
    decreases |s| - i
  {
    if DigitAt(b, s, i) then DigitsEnd(b, s, i + 1, true, false)
    else if Is(s, i, '_') && some && !under then DigitsEnd(b, s, i + 1, some, true)
    else (i, under)
  }

  /** The first of these suffixes that stands here by itself. */
  function SuffixEnd(ls: Letters, s: string, i: nat, sufs: seq<string>): (r: Option<nat>)
    requires i <= |s|
    ensures r.Some? ==> i <= r.value <= |s|
    decreases |sufs|
  {
    if sufs == [] then None
    else if StartsAt(s, i, sufs[0]) && !MoreAt(ls, s, i + |sufs[0]|) then Some(i + |sufs[0]|)
    else SuffixEnd(ls, s, i, sufs[1..])
  }

  function IntSuffixEnd(ls: Letters, s: string, i: nat): (j: nat)
    requires i <= |s|
    ensures i <= j <= |s|
  {
    if Is(s, i, 'u') || Is(s, i, 'i') then
      (match SuffixEnd(ls, s, i + 1, WIDTHS) case Some(j) => j case None => i)
    else i
  }

  function DigitRun(s: string, i: nat): (j: nat)
    requires i <= |s|
    ensures i <= j <= |s|
    decreases |s| - i
  {
    if DigitAt(Dec, s, i) then DigitRun(s, i + 1) else i
  }

  function FloatSuffixEnd(s: string, i: nat): (j: nat)
    requires i <= |s|
    ensures i <= j <= |s|
  {
    if Is(s, i, 'f') then
      var j := DigitRun(s, i + 1); if s[i + 1..j] == "32" || s[i + 1..j] == "64" then j else i
    else i
  }

  // ----- the token at a position -----

  /** The reports of unknown characters. */
  function Unknowns(notes: seq<Note>): seq<Note> {
    if notes == [] then [] else (if notes[0].code == UnknownChar then [notes[0]] else []) + Unknowns(notes[1..])
  }

  lemma {:induction false} UnknownsJoin(a: seq<Note>, b: seq<Note>)
    ensures Unknowns(a + b) == Unknowns(a) + Unknowns(b)
    decreases |a|
  {
    if a == [] {
      assert a + b == b;
    } else {
      var first := if a[0].code == UnknownChar then [a[0]] else [];
      assert (a + b)[0] == a[0] && (a + b)[1..] == a[1..] + b;
      UnknownsJoin(a[1..], b);
      assert first + (Unknowns(a[1..]) + Unknowns(b)) == (first + Unknowns(a[1..])) + Unknowns(b);
    }
  }

  /** What a scan comes to: a token or an unknown character, its end, and what is
      reported. */
  datatype Scan = Scan(kind: Option<Kind>, end: nat, notes: seq<Note>)

  function DigitNote(r: (nat, bool)): seq<Note>
    requires r.1 ==> r.0 > 0
  {
    if r.1 then [Note(BadNumber, r.0 - 1, r.0)] else []
  }

  function Based(ls: Letters, s: string, i: nat, b: Base): (r: Scan)
    requires i <= |s|
    ensures i <= r.end <= |s| && r.kind.Some? && Unknowns(r.notes) == []
  {
    var d := DigitsEnd(b, s, i, false, false);
    Scan(Some(IntLit), IntSuffixEnd(ls, s, d.0), DigitNote(d))
  }

  /** `.` and a digit; `1..` is a range. */
  predicate HasFraction(s: string, i: nat) { Is(s, i, '.') && DigitAt(Dec, s, i + 1) }

  function SignEnd(s: string, i: nat): nat { if Is(s, i, '+') || Is(s, i, '-') then i + 1 else i }

  predicate HasExponent(s: string, i: nat) { (Is(s, i, 'e') || Is(s, i, 'E')) && DigitAt(Dec, s, SignEnd(s, i + 1)) }

  function FractionEnd(s: string, i: nat): (r: (nat, bool))
    requires i <= |s|
    ensures i <= r.0 <= |s| && (r.1 ==> r.0 > 0)
  {
    if HasFraction(s, i) then DigitsEnd(Dec, s, i + 1, false, false) else (i, false)
  }

  function ExponentEnd(s: string, i: nat): (r: (nat, bool))
    requires i <= |s|
    ensures i <= r.0 <= |s| && (r.1 ==> r.0 > 0)
  {
    if HasExponent(s, i) then DigitsEnd(Dec, s, SignEnd(s, i + 1), false, false) else (i, false)
  }

  function IntKindEnd(ls: Letters, s: string, i: nat): (r: (Kind, nat))
    requires i <= |s|
    ensures i <= r.1 <= |s|
  {
    match SuffixEnd(ls, s, i, SIZES)
    case Some(j) => (SizeLit, j)
    case None =>
      match SuffixEnd(ls, s, i, DURATIONS)
      case Some(j) => (DurationLit, j)
      case None => (IntLit, IntSuffixEnd(ls, s, i))
  }

  function Decimal(ls: Letters, s: string, i: nat): (r: Scan)
    requires i < |s| && Digit(s[i])
    ensures i < r.end <= |s| && r.kind.Some? && Unknowns(r.notes) == []
  {
    var d := DigitsEnd(Dec, s, i, false, false);
    var f := FractionEnd(s, d.0);
    var x := ExponentEnd(s, f.0);
    var notes := DigitNote(d) + DigitNote(f) + DigitNote(x);
    UnknownsJoin(DigitNote(d) + DigitNote(f), DigitNote(x));
    UnknownsJoin(DigitNote(d), DigitNote(f));
    assert DigitAt(Dec, s, i) && i + 1 <= d.0;
    if HasFraction(s, d.0) || HasExponent(s, f.0) then Scan(Some(FloatLit), FloatSuffixEnd(s, x.0), notes)
    else var k := IntKindEnd(ls, s, d.0); Scan(Some(k.0), k.1, notes)
  }

  function Number(ls: Letters, s: string, i: nat): (r: Scan)
    requires i < |s| && Digit(s[i])
    ensures i < r.end <= |s| && r.kind.Some? && Unknowns(r.notes) == []
  {
    if s[i] == '0' && (Is(s, i + 1, 'x') || Is(s, i + 1, 'X')) then Based(ls, s, i + 2, Hex)
    else if s[i] == '0' && (Is(s, i + 1, 'o') || Is(s, i + 1, 'O')) then Based(ls, s, i + 2, Oct)
    else if s[i] == '0' && (Is(s, i + 1, 'b') || Is(s, i + 1, 'B')) then Based(ls, s, i + 2, Bin)
    else Decimal(ls, s, i)
  }

  /** Three slashes, and not four. */
  predicate IsDoc(s: string, i: nat) { Is(s, i + 2, '/') && !Is(s, i + 3, '/') }

  function Comment(s: string, i: nat): Scan
    requires i + 2 <= |s|
  {
    if IsDoc(s, i) then Scan(Some(DocComment), Until(s, i + 3, '\n'), [])
    else Scan(Some(LineComment), Until(s, i + 2, '\n'), [])
  }

  function Block(s: string, i: nat): Scan
    requires i + 2 <= |s|
  {
    var r := BlockEnd(s, i + 2, 1);
    Scan(Some(BlockComment), r.0, if r.1 != 0 then [Note(UnterminatedComment, i, r.0)] else [])
  }

  /** A literal that was closed, or one that runs to the end of the source. */
  function Quoted(kind: Kind, i: nat, r: (nat, bool)): Scan {
    Scan(Some(kind), r.0, if r.1 then [] else [Note(UnterminatedString, i, r.0)])
  }

  /** `r`, hashes, and a quote. */
  predicate RawOpens(s: string, i: nat)
    requires i < |s|
  {
    s[i] == 'r' && Is(s, HashesEnd(s, i + 1), '"')
  }

  function Raw(s: string, i: nat): Scan
    requires i < |s| && RawOpens(s, i)
  {
    var j := HashesEnd(s, i + 1);
    Quoted(RawStringLit, i, RawEnd(s, j + 1, "\"" + Hashes(j - (i + 1))))
  }

  function CharScan(s: string, i: nat): Scan
    requires i < |s|
  {
    var j := CharEnd(s, i + 1);
    if Is(s, j, '\'') then Scan(Some(CharLit), j + 1, []) else Scan(Some(CharLit), j, [Note(BadChar, i, j)])
  }

  function Name(ls: Letters, s: string, i: nat): Scan
    requires i < |s|
  {
    var j := NameEnd(ls, s, i + 1);
    var text := s[i..j];
    Scan(Some(if text == "_" then Underscore else if text in KEYWORDS then Keyword else Ident), j, [])
  }

  function PunctSize(s: string, i: nat): (n: nat)
    requires i < |s|
    ensures i + n <= |s|
  {
    if i + 3 <= |s| && s[i..i + 3] in THREES then 3
    else if i + 2 <= |s| && s[i..i + 2] in TWOS then 2
    else if s[i] in ONES then 1
    else 0
  }

  function PunctOrUnknown(s: string, i: nat): Scan
    requires i < |s|
  {
    var n := PunctSize(s, i);
    if n > 0 then Scan(Some(Punct), i + n, []) else Scan(None, i + 1, [Note(UnknownChar, i, i + 1)])
  }

  function Next(ls: Letters, s: string, i: nat): (r: Scan)
    requires i < |s|
    ensures i < r.end <= |s|
    ensures Unknowns(r.notes) == if r.kind.None? then [Note(UnknownChar, i, i + 1)] else []
    ensures r.kind.None? ==> r.end == i + 1
  {
    var c := s[i];
    if c == ' ' || c == '\t' then Scan(Some(Whitespace), SpaceEnd(s, i + 1), [])
    else if c == '\n' then Scan(Some(Newline), i + 1, [])
    else if c == '/' && Is(s, i + 1, '/') then Comment(s, i)
    else if c == '/' && Is(s, i + 1, '*') then Block(s, i)
    else if RawOpens(s, i) then Raw(s, i)
    else if c == 'b' && Is(s, i + 1, '"') then Quoted(ByteStringLit, i, ByteEnd(s, i + 2))
    else if StartsAt(s, i, "html\"") then Quoted(HtmlLit, i, HtmlEnd(s, i + 5, 0))
    else if c == '"' then Quoted(StringLit, i, StringEnd(s, i + 1))
    else if c == '\'' then CharScan(s, i)
    else if Digit(c) then Number(ls, s, i)
    else if NameStart(ls, c) then Name(ls, s, i)
    else PunctOrUnknown(s, i)
  }

  // ----- the whole source -----

  datatype Out = Out(tokens: seq<Token>, notes: seq<Note>)

  function Made(s: string, i: nat, r: Scan): seq<Token>
    requires i <= r.end <= |s|
  {
    if r.kind.None? then [] else [Token(r.kind.value, s[i..r.end], i, r.end)]
  }

  function Lex(ls: Letters, s: string, i: nat): Out
    requires i <= |s|
    decreases |s| - i
  {
    if i == |s| then Out([], [])
    else
      var r := Next(ls, s, i);
      var rest := Lex(ls, s, r.end);
      Out(Made(s, i, r) + rest.tokens, r.notes + rest.notes)
  }

  /** Tokens and unknown characters, merged by position, follow one another without
      gap or overlap from `a` to `b`. */
  predicate Tiled(ts: seq<Token>, us: seq<Note>, a: nat, b: nat)
    decreases |ts| + |us|
  {
    if ts != [] && ts[0].start == a then ts[0].end > a && Tiled(ts[1..], us, ts[0].end, b)
    else if us != [] && us[0].start == a then us[0].end == a + 1 && Tiled(ts, us[1..], a + 1, b)
    else ts == [] && us == [] && a == b
  }

  predicate Slices(s: string, ts: seq<Token>) {
    ts == [] || (ts[0].start <= ts[0].end <= |s| && ts[0].text == s[ts[0].start..ts[0].end] && Slices(s, ts[1..]))
  }

  function Texts(ts: seq<Token>): string { if ts == [] then "" else ts[0].text + Texts(ts[1..]) }

  /** Every source: the lexer ends, and its tokens and unknown characters partition
      what it was given. */
  lemma {:induction false} LexTiles(ls: Letters, s: string, i: nat)
    requires i <= |s|
    ensures var out := Lex(ls, s, i); Tiled(out.tokens, Unknowns(out.notes), i, |s|) && Slices(s, out.tokens)
    decreases |s| - i
  {
    if i < |s| {
      var r := Next(ls, s, i);
      LexTiles(ls, s, r.end);
      TileStep(s, i, r, Lex(ls, s, r.end));
    }
  }

  lemma TileStep(s: string, i: nat, r: Scan, rest: Out)
    requires i < r.end <= |s| && Unknowns(r.notes) == (if r.kind.None? then [Note(UnknownChar, i, i + 1)] else [])
    requires r.kind.None? ==> r.end == i + 1
    requires Tiled(rest.tokens, Unknowns(rest.notes), r.end, |s|) && Slices(s, rest.tokens)
    ensures Tiled(Made(s, i, r) + rest.tokens, Unknowns(r.notes + rest.notes), i, |s|) && Slices(s, Made(s, i, r) + rest.tokens)
  {
    UnknownsJoin(r.notes, rest.notes);
    if r.kind.Some? {
      assert (Made(s, i, r) + rest.tokens)[1..] == rest.tokens;
      assert Unknowns(r.notes + rest.notes) == Unknowns(rest.notes);
    } else {
      NoneBefore(rest.tokens, Unknowns(rest.notes), r.end, |s|);
      assert Made(s, i, r) + rest.tokens == rest.tokens;
      assert ([Note(UnknownChar, i, i + 1)] + Unknowns(rest.notes))[1..] == Unknowns(rest.notes);
    }
  }

  lemma {:induction false} NoneBefore(ts: seq<Token>, us: seq<Note>, a: nat, b: nat)
    requires Tiled(ts, us, a, b)
    ensures a <= b && (ts != [] ==> ts[0].start >= a)
    decreases |ts| + |us|
  {
    if ts != [] && ts[0].start == a {
      NoneBefore(ts[1..], us, ts[0].end, b);
    } else if us != [] && us[0].start == a {
      NoneBefore(ts, us[1..], a + 1, b);
    }
  }

  /** The texts of the tokens give the source back exactly when no character was
      unknown. */
  lemma {:induction false} TextsRebuild(s: string, ts: seq<Token>, us: seq<Note>, a: nat)
    requires a <= |s| && Tiled(ts, us, a, |s|) && Slices(s, ts)
    ensures |Texts(ts)| + |us| == |s| - a
    ensures Texts(ts) == s[a..] <==> us == []
    decreases |ts| + |us|
  {
    if ts != [] && ts[0].start == a {
      TextsRebuild(s, ts[1..], us, ts[0].end);
      assert s[a..] == s[a..ts[0].end] + s[ts[0].end..];
    } else if us != [] && us[0].start == a {
      NoneBefore(ts, us[1..], a + 1, |s|);
      TextsRebuild(s, ts, us[1..], a + 1);
    }
  }

  // ----- the longest match -----

  /** The punctuation of the language. */
  predicate IsPunct(p: string) { p in THREES || p in TWOS || (|p| == 1 && p[0] in ONES) }

  /** Where no other scan applies, the token is the longest punctuation that stands
      here, and the character is unknown exactly when none does. */
  lemma LongestPunct(s: string, i: nat)
    requires i < |s|
    ensures
      var n := PunctSize(s, i);
      && (n > 0 ==> IsPunct(s[i..i + n]))
      && forall p :: IsPunct(p) && StartsAt(s, i, p) ==> |p| <= n
  {
    forall p | IsPunct(p) && StartsAt(s, i, p) ensures |p| <= PunctSize(s, i)
    {
      if p in THREES { assert |p| == 3; }
      if p in TWOS { assert |p| == 2; }
    }
  }

  /** A name ends only where the source does or where no name character follows. */
  lemma {:induction false} NameIsLongest(ls: Letters, s: string, i: nat)
    requires i <= |s|
    ensures !MoreAt(ls, s, NameEnd(ls, s, i)) && forall k :: i <= k < NameEnd(ls, s, i) ==> NameMore(ls, s[k])
    decreases |s| - i
  {
    if MoreAt(ls, s, i) { NameIsLongest(ls, s, i + 1); }
  }

  // ----- line ends -----

  /** CRLF pairs replaced, from the left. */
  function Unix(text: string): string {
    if text == "" then ""
    else if |text| > 1 && text[0] == '\r' && text[1] == '\n' then "\n" + Unix(text[2..])
    else [text[0]] + Unix(text[1..])
  }

  function Normal(text: string): string { Unix(if Is(text, 0, BOM) then text[1..] else text) }

  predicate HasPair(t: string) { |t| > 1 && ((t[0] == '\r' && t[1] == '\n') || HasPair(t[1..])) }

  predicate HasTriple(t: string) { |t| > 2 && ((t[0] == '\r' && t[1] == '\r' && t[2] == '\n') || HasTriple(t[1..])) }

  /** One pass from the left: the normalised source still has a CRLF exactly when the
      text had a CR before a CRLF. */
  lemma {:induction false} UnixLeavesPairs(t: string)
    ensures HasPair(Unix(t)) <==> HasTriple(t)
    decreases |t|
  {
    if |t| > 1 && t[0] == '\r' && t[1] == '\n' {
      UnixLeavesPairs(t[2..]);
      assert Unix(t)[1..] == Unix(t[2..]);
      assert |t| > 2 ==> t[1..][1..] == t[2..];
      assert HasTriple(t) <==> HasTriple(t[1..]);
      assert HasTriple(t[1..]) <==> HasTriple(t[2..]);
    } else if t != "" {
      UnixLeavesPairs(t[1..]);
      assert Unix(t)[1..] == Unix(t[1..]);
    }
  }

  /** Without a pair nothing changes, and the first pair becomes a line feed. */
  lemma {:induction false} UnixFirst(a: string, b: string)
    requires !HasPair(a)
    ensures Unix(a) == a && Unix(a + "\r\n" + b) == a + "\n" + Unix(b)
    decreases |a|
  {
    var t := a + "\r\n" + b;
    if a == "" {
      assert t[2..] == b;
    } else {
      assert t[1..] == a[1..] + "\r\n" + b && t[0] == a[0] && t[1] == (a[1..] + "\r\n" + b)[0];
      UnixFirst(a[1..], b);
      assert a == [a[0]] + a[1..];
    }
  }
}
