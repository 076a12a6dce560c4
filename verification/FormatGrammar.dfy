/**
 The language of format strings, written down as derivation trees over the
 characters themselves, and the proof that the parser reads exactly this
 language and gives each format the value of its derivation.
 */
module FormatGrammar {
  import opened Options
  import opened FormatParser

  /** A character of a literal text, as it is or escaped. */
  datatype Piece = Bare(c: char) | Escaped(c: char)

  /** What stands between braces. */
  datatype Word = Nothing | Letters(name: string) | Number(sign: string, digits: string)

  datatype Node =
    | Braces(word: Word)
    | Conditional(word: Word, body: Tree)
    | Percent(flags: string, width: string, letter: char)

  datatype Tree = Last(pieces: seq<Piece>) | Then(pieces: seq<Piece>, node: Node, rest: Tree)

  // ---------------------------------------------------------------------
  // Which trees there are.

  predicate AllIn(s: string, chars: string) {
    forall i :: 0 <= i < |s| ==> s[i] in chars
  }

  const DIGITS := "0123456789"

  predicate Letter(c: char) {
    'a' <= c <= 'z' || 'A' <= c <= 'Z'
  }

  /** The number that a string of digits stands for. */
  function Decimal(digits: string): int {
    if digits == "" then 0 else 10 * Decimal(digits[..|digits| - 1]) + (digits[|digits| - 1] as int - 48)
  }

  function Signed(sign: string, digits: string): int {
    if sign == "-" then -Decimal(digits) else Decimal(digits)
  }

  predicate LegalPiece(p: Piece) {
    match p
    case Bare(c) => c !in "\\{}%"
    case Escaped(c) => c in "\\{}%"
  }

  predicate LegalPieces(ps: seq<Piece>) {
    forall i :: 0 <= i < |ps| ==> LegalPiece(ps[i])
  }

  predicate LegalWord(w: Word) {
    match w
    case Nothing => true
    case Letters(name) =>
      && name != "" && Letter(name[0])
      && forall i :: 0 <= i < |name| ==> Letter(name[i]) || name[i] in DIGITS
    case Number(sign, digits) =>
      && (sign == "" || sign == "+" || sign == "-")
      && digits != "" && AllIn(digits, DIGITS)
      && -2147483648 <= Signed(sign, digits) <= 2147483647
  }

  /** A zero in front of the width is one of the flags. */
  predicate LegalNode(node: Node) {
    match node
    case Braces(w) => LegalWord(w)
    case Conditional(w, body) => LegalWord(w) && Legal(body)
    case Percent(flags, width, letter) =>
      && AllIn(flags, "-+# 0'")
      && AllIn(width, DIGITS) && (width != "" ==> width[0] != '0') && Decimal(width) <= 4294967295
      && letter in "cdefgioprsuxCEGSX%"
  }

  predicate Legal(tree: Tree) {
    match tree
    case Last(ps) => LegalPieces(ps)
    case Then(ps, node, rest) => LegalPieces(ps) && LegalNode(node) && Legal(rest)
  }

  // ---------------------------------------------------------------------
  // How a tree is written, in front of the string `k`.

  function SpellPieces(ps: seq<Piece>, k: string): string {
    if ps == [] then k
    else
      var tail := Put(ps[0].c, SpellPieces(ps[1..], k));
      if ps[0].Escaped? then Put('\\', tail) else tail
  }

  function SpellWord(w: Word, k: string): string {
    match w
    case Nothing => k
    case Letters(name) => name + k
    case Number(sign, digits) => sign + (digits + k)
  }

  function SpellNode(node: Node, k: string): string
    decreases node
  {
    match node
    case Braces(w) => Put('{', SpellWord(w, Put('}', k)))
    case Conditional(w, body) => Put('{', SpellWord(w, Put('?', Spell(body, Put('}', k)))))
    case Percent(flags, width, letter) => Put('%', flags + (width + Put(letter, k)))
  }

  function Spell(tree: Tree, k: string): string
    decreases tree
  {
    match tree
    case Last(ps) => SpellPieces(ps, k)
    case Then(ps, node, rest) => SpellPieces(ps, SpellNode(node, Spell(rest, k)))
  }

  // ---------------------------------------------------------------------
  // What a tree stands for.

  function TextOf(ps: seq<Piece>): string {
    seq(|ps|, i requires 0 <= i < |ps| => ps[i].c)
  }

  function VarOf(w: Word): Var {
    match w
    case Nothing => Next
    case Letters(name) => Name(name)
    case Number(sign, digits) => Index(Signed(sign, digits))
  }

  function LegacyOf(flags: string, width: string, letter: char): Legacy {
    Legacy(Flags('-' in flags, '+' in flags, LastPadding(flags) == Some('0')),
           if width == "" then None else Some(Decimal(width)),
           letter)
  }

  function ItemOf(node: Node): Item
    decreases node
  {
    match node
    case Braces(w) => Plain(VarOf(w))
    case Conditional(w, body) => Branch(VarOf(w), PhraseOf(body))
    case Percent(flags, width, letter) => Directive(LegacyOf(flags, width, letter))
  }

  function PhraseOf(tree: Tree): Phrase
    decreases tree
  {
    match tree
    case Last(ps) => End(TextOf(ps))
    case Then(ps, node, rest) => More(TextOf(ps), ItemOf(node), PhraseOf(rest))
  }

  // ---------------------------------------------------------------------
  // The character classes of the parser.

  lemma Classes(c: char)
    ensures IsSpecial(c) <==> c in "\\{}%"
    ensures IsDigit(c) <==> c in DIGITS
    ensures IsAlpha(c) <==> Letter(c)
    ensures IsFlag(c) <==> c in "-+# 0'"
    ensures IsFormat(c) <==> c in "cdefgioprsuxCEGSX%"
    ensures IsDigit(c) ==> DigitValue(c) == c as int - 48
  {
    SpecialClass(c);
    DigitClass(c);
    FlagClass(c);
    FormatClass(c);
  }

  lemma SpecialClass(c: char)
    ensures IsSpecial(c) <==> c in "\\{}%"
  {
  }

  lemma FlagClass(c: char)
    ensures IsFlag(c) <==> c in "-+# 0'"
  {
  }

  lemma DigitClass(c: char)
    ensures IsDigit(c) <==> c in DIGITS
  {
    if IsDigit(c) {
      assert DIGITS[c as int - 48] == c;
    }
  }

  lemma FormatClass(c: char)
    ensures IsFormat(c) <==> c in "cdefgioprsuxCEGSX%"
  {
  }

  lemma Cons(s: string, k: string)
    requires s != ""
    ensures s + k != "" && (s + k)[0] == s[0] && (s + k)[1..] == s[1..] + k
  {
  }

  // ---------------------------------------------------------------------
  // Every legal spelling is read.

  lemma {:induction false} PiecesAreRead(ps: seq<Piece>, k: string)
    requires LegalPieces(ps) && EndsLiteral(k)
    ensures ParseLiteral(SpellPieces(ps, k)) == (TextOf(ps), k)
    decreases |ps|
  {
    if ps != [] {
      var c := ps[0].c;
      SpecialClass(c);
      assert LegalPiece(ps[0]);
      PiecesAreRead(ps[1..], k);
      var tail := Put(c, SpellPieces(ps[1..], k));
      assert TextOf(ps) == [c] + TextOf(ps[1..]);
      if ps[0].Escaped? {
        var s := Put('\\', tail);
        assert s[2..] == s[1..][1..];
      }
    }
  }

  lemma {:induction false} NameIsRead(name: string, k: string)
    requires forall i :: 0 <= i < |name| ==> Letter(name[i]) || name[i] in DIGITS
    requires !StartsAlnum(k)
    ensures ParseAlnums(name + k) == (name, k)
    decreases |name|
  {
    if name == "" {
      assert name + k == k;
    } else {
      Classes(name[0]);
      Cons(name, k);
      NameIsRead(name[1..], k);
      assert name == [name[0]] + name[1..];
    }
  }

  lemma DecimalOneMore(digits: string, c: char)
    ensures Decimal(digits + [c]) == 10 * Decimal(digits) + (c as int - 48)
  {
    var more := digits + [c];
    assert more[..|more| - 1] == digits && more[|more| - 1] == c;
  }

  lemma {:induction false} DigitsAreRead(digits: string, k: string, i: nat, n: nat)
    requires AllIn(digits, DIGITS) && i <= |digits| && n == Decimal(digits[..i])
    ensures Decimal(digits) >= n
    ensures ParseNumber((digits + k)[i..], n) == ParseNumber(k, Decimal(digits))
    decreases |digits| - i
  {
    var s := (digits + k)[i..];
    if i == |digits| {
      assert s == k && digits[..i] == digits;
    } else {
      DigitClass(digits[i]);
      assert s[0] == digits[i] && s[1..] == (digits + k)[i + 1..];
      assert digits[..i + 1] == digits[..i] + [digits[i]];
      DecimalOneMore(digits[..i], digits[i]);
      DigitsAreRead(digits, k, i + 1, 10 * n + DigitValue(s[0]));
    }
  }

  lemma NumberIsDecimal(digits: string, k: string)
    requires digits != "" && AllIn(digits, DIGITS) && !StartsDigit(k)
    ensures StartsDigit(digits + k) && Decimal(digits) >= 0
    ensures ParseNumber((digits + k)[1..], DigitValue((digits + k)[0])) == (Decimal(digits), k)
  {
    DigitClass(digits[0]);
    Cons(digits, k);
    assert digits[..1] == "" + [digits[0]];
    DecimalOneMore("", digits[0]);
    DigitsAreRead(digits, k, 1, DigitValue(digits[0]));
  }

  lemma UnsignedIsRead(digits: string, k: string, max: int)
    requires digits != "" && AllIn(digits, DIGITS) && !StartsDigit(k) && Decimal(digits) <= max
    ensures StartsDigit(digits + k)
    ensures ParseUnsigned(digits + k, max) == Some((Decimal(digits), k))
  {
    NumberIsDecimal(digits, k);
  }

  lemma LettersAreRead(name: string, k: string)
    requires LegalWord(Letters(name)) && !StartsAlnum(k)
    ensures ParseVar(name + k) == (Name(name), k)
  {
    Classes(name[0]);
    Cons(name, k);
    NameIsRead(name[1..], k);
    assert name == [name[0]] + name[1..];
  }

  lemma NumberIsRead(sign: string, digits: string, k: string)
    requires LegalWord(Number(sign, digits)) && !StartsDigit(k)
    ensures ParseInt(sign + (digits + k)) == Some((Signed(sign, digits), k))
    ensures
      var s := sign + (digits + k);
      s != "" && !IsAlpha(s[0])
  {
    UnsignedIsRead(digits, k, if sign == "-" then 2147483648 else 2147483647);
    if sign == "" {
      assert sign + (digits + k) == digits + k;
    } else {
      Cons(sign, digits + k);
      assert sign[1..] + (digits + k) == digits + k;
    }
  }

  lemma WordIsRead(w: Word, k: string)
    requires LegalWord(w) && (StartsWith(k, '?') || StartsWith(k, '}'))
    ensures ParseVar(SpellWord(w, k)) == (VarOf(w), k)
  {
    match w
    case Nothing =>
    case Letters(name) => LettersAreRead(name, k);
    case Number(sign, digits) => NumberIsRead(sign, digits, k);
  }

  lemma WidthIsRead(f: Flags, width: string, letter: char, k: string)
    requires LegalNode(Percent("", width, letter))
    ensures
      var s := width + Put(letter, k);
      && s != "" && !IsFlag(s[0])
      && ParseWidthAndFormat(f, s) ==
           Some((Directive(Legacy(f, if width == "" then None else Some(Decimal(width)), letter)), k))
  {
    var tail := Put(letter, k);
    LetterIsNoDigit(letter);
    if width == "" {
      assert width + tail == tail;
    } else {
      Classes(width[0]);
      Cons(width, tail);
      UnsignedIsRead(width, tail, 4294967295);
    }
  }

  lemma LetterIsNoDigit(letter: char)
    requires letter in "cdefgioprsuxCEGSX%"
    ensures IsFormat(letter) && !IsDigit(letter) && !IsFlag(letter)
  {
    FormatClass(letter);
  }

  lemma FlagsAreFlags(flags: string)
    ensures AllIn(flags, "-+# 0'") <==> AllFlags(flags)
  {
    forall i | 0 <= i < |flags| ensures flags[i] in "-+# 0'" <==> IsFlag(flags[i]) {
      FlagClass(flags[i]);
    }
  }

  lemma PercentIsRead(flags: string, width: string, letter: char, k: string)
    requires LegalNode(Percent(flags, width, letter))
    ensures ParseItem(SpellNode(Percent(flags, width, letter), k)) ==
              Some((Directive(LegacyOf(flags, width, letter)), k))
  {
    var rest := width + Put(letter, k);
    FlagsAreFlags(flags);
    FlagsMeaning(flags, rest) by {
      WidthIsRead(Flags(false, false, false), width, letter, k);
    }
    WidthIsRead(LegacyOf(flags, width, letter).flags, width, letter, k);
  }

  lemma {:induction false} NodeIsRead(node: Node, k: string)
    requires LegalNode(node)
    ensures ParseItem(SpellNode(node, k)) == Some((ItemOf(node), k))
    decreases node
  {
    match node
    case Braces(w) =>
      WordIsRead(w, Put('}', k));
    case Conditional(w, body) =>
      TreeIsRead(body, Put('}', k));
      WordIsRead(w, Put('?', Spell(body, Put('}', k))));
    case Percent(flags, width, letter) =>
      PercentIsRead(flags, width, letter, k);
  }

  lemma {:induction false} TreeIsRead(tree: Tree, k: string)
    requires Legal(tree) && (k != "" ==> k[0] == '}')
    ensures ParsePhrase(Spell(tree, k)) == (PhraseOf(tree), k)
    decreases tree
  {
    match tree
    case Last(ps) =>
      PiecesAreRead(ps, k);
    case Then(ps, node, rest) =>
      TreeIsRead(rest, k);
      NodeIsRead(node, Spell(rest, k));
      PiecesAreRead(ps, SpellNode(node, Spell(rest, k)));
  }

  // ---------------------------------------------------------------------
  // Whatever is read has a legal spelling.

  lemma {:induction false} LiteralIsSpelled(s: string) returns (ps: seq<Piece>)
    ensures LegalPieces(ps) && SpellPieces(ps, ParseLiteral(s).1) == s && TextOf(ps) == ParseLiteral(s).0
    decreases |s|
  {
    ps := [];
    if s != "" {
      SpecialClass(s[0]);
      if |s| > 1 && s[0] == '\\' && IsSpecial(s[1]) {
        SpecialClass(s[1]);
        var tail := LiteralIsSpelled(s[2..]);
        ps := [Escaped(s[1])] + tail;
        assert ps[1..] == tail && TextOf(ps) == [s[1]] + TextOf(tail);
        assert s == ['\\'] + ([s[1]] + s[2..]);
      } else if !IsSpecial(s[0]) {
        var tail := LiteralIsSpelled(s[1..]);
        ps := [Bare(s[0])] + tail;
        assert ps[1..] == tail && TextOf(ps) == [s[0]] + TextOf(tail);
        assert s == [s[0]] + s[1..];
      }
    }
  }

  lemma {:induction false} NameIsSpelled(s: string)
    ensures
      var (name, rest) := ParseAlnums(s);
      && name + rest == s
      && forall i :: 0 <= i < |name| ==> Letter(name[i]) || name[i] in DIGITS
    decreases |s|
  {
    if StartsAlnum(s) {
      Classes(s[0]);
      NameIsSpelled(s[1..]);
    }
  }

  /** The digits at the start of a string. */
  function LeadingDigits(s: string): string
    decreases |s|
  {
    if StartsDigit(s) then [s[0]] + LeadingDigits(s[1..]) else ""
  }

  lemma {:induction false} LeadingDigitsAreAll(s: string)
    ensures
      var digits := LeadingDigits(s);
      && |digits| <= |s| && s == digits + s[|digits|..]
      && AllIn(digits, DIGITS) && !StartsDigit(s[|digits|..])
    decreases |s|
  {
    if StartsDigit(s) {
      DigitClass(s[0]);
      LeadingDigitsAreAll(s[1..]);
      var tail := LeadingDigits(s[1..]);
      assert s[1..][|tail|..] == s[1 + |tail|..];
    }
  }

  lemma UnsignedIsSpelled(s: string, max: int) returns (digits: string)
    requires ParseUnsigned(s, max).Some?
    ensures digits != "" && AllIn(digits, DIGITS) && digits[0] == s[0]
    ensures digits + ParseUnsigned(s, max).value.1 == s
    ensures Decimal(digits) == ParseUnsigned(s, max).value.0
  {
    digits := LeadingDigits(s);
    LeadingDigitsAreAll(s);
    NumberIsDecimal(digits, s[|digits|..]);
  }

  lemma NumberIsSpelled(s: string) returns (w: Word)
    requires ParseInt(s).Some?
    ensures w.Number? && LegalWord(w)
    ensures SpellWord(w, ParseInt(s).value.1) == s && VarOf(w) == Index(ParseInt(s).value.0)
  {
    if StartsWith(s, '-') {
      var digits := UnsignedIsSpelled(s[1..], INT_MAX + 1);
      w := Number("-", digits);
    } else if StartsWith(s, '+') {
      var digits := UnsignedIsSpelled(s[1..], INT_MAX);
      w := Number("+", digits);
    } else {
      var digits := UnsignedIsSpelled(s, INT_MAX);
      w := Number("", digits);
    }
  }

  lemma WordIsSpelled(s: string) returns (w: Word)
    ensures LegalWord(w) && SpellWord(w, ParseVar(s).1) == s && VarOf(w) == ParseVar(s).0
  {
    if s != "" && IsAlpha(s[0]) {
      NameIsSpelled(s[1..]);
      var name := ParseAlnums(s[1..]).0;
      w := Letters([s[0]] + name);
      assert forall i :: 0 < i <= |name| ==> ([s[0]] + name)[i] == name[i - 1];
    } else if ParseInt(s).Some? {
      w := NumberIsSpelled(s);
    } else {
      w := Nothing;
    }
  }

  lemma {:induction false} FlagsAreSpelled(s: string, f: Flags) returns (flags: string)
    ensures AllFlags(flags) && flags + ParseFlags(s, f).1 == s
    decreases |s|
  {
    flags := "";
    if s != "" && IsFlag(s[0]) {
      var tail := FlagsAreSpelled(s[1..], ApplyFlag(f, s[0]));
      flags := [s[0]] + tail;
    }
  }

  lemma PercentIsSpelled(s: string) returns (node: Node)
    requires ParseLegacy(s).Some?
    ensures LegalNode(node) && SpellNode(node, ParseLegacy(s).value.1) == s && ItemOf(node) == ParseLegacy(s).value.0
  {
    var none := Flags(false, false, false);
    var flags := FlagsAreSpelled(s[1..], none);
    var rest := ParseFlags(s[1..], none).1;
    FlagsLeaveNoFlag(s[1..], none);
    FlagsMeaning(flags, rest);
    FlagsAreFlags(flags);
    var width := "";
    if ParseUnsigned(rest, UINT_MAX).Some? {
      width := UnsignedIsSpelled(rest, UINT_MAX);
    }
    var item := ParseLegacy(s).value.0;
    FormatClass(item.legacy.fmt);
    node := Percent(flags, width, item.legacy.fmt);
  }

  lemma HeadAndTail(s: string)
    requires s != ""
    ensures s == Put(s[0], s[1..])
  {
  }

  lemma {:induction false} NodeIsSpelled(s: string) returns (node: Node)
    requires ParseItem(s).Some?
    ensures LegalNode(node) && SpellNode(node, ParseItem(s).value.1) == s && ItemOf(node) == ParseItem(s).value.0
    decreases |s|, 1
  {
    if StartsWith(s, '{') {
      HeadAndTail(s);
      var w := WordIsSpelled(s[1..]);
      var rest := ParseVar(s[1..]).1;
      HeadAndTail(rest);
      if StartsWith(rest, '?') {
        var body := TreeIsSpelled(rest[1..]);
        HeadAndTail(ParsePhrase(rest[1..]).1);
        node := Conditional(w, body);
      } else {
        node := Braces(w);
      }
    } else {
      node := PercentIsSpelled(s);
    }
  }

  lemma {:induction false} TreeIsSpelled(s: string) returns (tree: Tree)
    ensures Legal(tree) && Spell(tree, ParsePhrase(s).1) == s && PhraseOf(tree) == ParsePhrase(s).0
    decreases |s|, 2
  {
    var ps := LiteralIsSpelled(s);
    var rest := ParseLiteral(s).1;
    if ParseItem(rest).Some? {
      var node := NodeIsSpelled(rest);
      var more := TreeIsSpelled(ParseItem(rest).value.1);
      tree := Then(ps, node, more);
    } else {
      tree := Last(ps);
    }
  }

  /** The grammar derives the string by this tree. */
  predicate Derives(tree: Tree, s: string) {
    Legal(tree) && Spell(tree, "") == s
  }

  /** The parser gives a format this phrase if and only if the phrase is what a derivation of the format stands for. */
  lemma ParseExactly(s: string, phrase: Phrase)
    ensures Parse(s) == Some(phrase) <==> exists tree :: Derives(tree, s) && PhraseOf(tree) == phrase
  {
    if Parse(s) == Some(phrase) {
      var tree := TreeIsSpelled(s);
      assert Derives(tree, s) && PhraseOf(tree) == phrase;
    }
    if exists tree :: Derives(tree, s) && PhraseOf(tree) == phrase {
      var tree :| Derives(tree, s) && PhraseOf(tree) == phrase;
      TreeIsRead(tree, "");
    }
  }

  /** A string is a valid format if and only if the grammar derives it. */
  lemma AcceptsExactly(s: string)
    ensures Parse(s).Some? <==> exists tree :: Derives(tree, s)
  {
    if Parse(s).Some? {
      ParseExactly(s, Parse(s).value);
    }
    if exists tree :: Derives(tree, s) {
      var tree :| Derives(tree, s);
      TreeIsRead(tree, "");
    }
  }
}
