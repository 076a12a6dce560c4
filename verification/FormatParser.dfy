/**
 The format strings of `elle::print`: their abstract syntax, the ordered-choice
 grammar that reads them, and a rendering that the grammar reads back.
 */
module FormatParser {
  import opened Options

  /** What a pair of braces names: the next argument, one by position, or one by name. */
  datatype Var = Next | Index(n: int) | Name(name: string)

  /** The flags of a directive. Padding is '0' when `zero` holds and a space otherwise. */
  datatype Flags = Flags(left: bool, showpos: bool, zero: bool)

  /** A printf-style directive. */
  datatype Legacy = Legacy(flags: Flags, width: Option<int>, fmt: char)

  datatype Item =
    | Plain(v: Var)
    | Branch(cond: Var, body: Phrase)
    | Directive(legacy: Legacy)

  /** Literal texts and items in alternation, a literal text at both ends. */
  datatype Phrase = End(text: string) | More(text: string, item: Item, rest: Phrase)

  const INT_MAX: int := 0x7FFF_FFFF
  const UINT_MAX: int := 0xFFFF_FFFF

  predicate IsSpecial(c: char) { c == '\\' || c == '{' || c == '}' || c == '%' }
  predicate IsAlpha(c: char) { 'a' <= c <= 'z' || 'A' <= c <= 'Z' }
  predicate IsDigit(c: char) { '0' <= c <= '9' }
  predicate IsAlnum(c: char) { IsAlpha(c) || IsDigit(c) }
  predicate IsFlag(c: char) { c in {'-', '+', '#', ' ', '0', '\''} }
  predicate IsFormat(c: char) {
    c in {'c', 'd', 'e', 'f', 'g', 'i', 'o', 'p', 'r', 's', 'u', 'x', 'C', 'E', 'G', 'S', 'X', '%'}
  }

  /** The string starts with a character that satisfies the grammar at this point. */
  predicate StartsWith(s: string, c: char) { s != "" && s[0] == c }
  predicate StartsDigit(s: string) { s != "" && IsDigit(s[0]) }
  predicate StartsAlnum(s: string) { s != "" && IsAlnum(s[0]) }

  // ---------------------------------------------------------------------
  // The grammar. Each function returns what it read and what is left.

  function ParseLiteral(s: string): (r: (string, string))
    ensures |r.1| <= |s|
  {
    if s == "" then ("", s)
    else if s[0] == '\\' then
      if |s| > 1 && IsSpecial(s[1]) then
        var (text, rest) := ParseLiteral(s[2..]);
        ([s[1]] + text, rest)
      else ("", s)
    else if IsSpecial(s[0]) then ("", s)
    else
      var (text, rest) := ParseLiteral(s[1..]);
      ([s[0]] + text, rest)
  }

  function ParseAlnums(s: string): (r: (string, string))
    ensures |r.1| <= |s|
  {
    if StartsAlnum(s) then
      var (name, rest) := ParseAlnums(s[1..]);
      ([s[0]] + name, rest)
    else ("", s)
  }

  function DigitValue(c: char): nat
    requires IsDigit(c)
  {
    c as int - '0' as int
  }

  /** Reads digits as the continuation of the number `n`. */
  function ParseNumber(s: string, n: nat): (r: (nat, string))
    ensures |r.1| <= |s|
    decreases |s|
  {
    if StartsDigit(s) then ParseNumber(s[1..], 10 * n + DigitValue(s[0])) else (n, s)
  }

  function ParseUnsigned(s: string, max: int): (r: Option<(int, string)>)
    ensures r.Some? ==> 0 <= r.value.0 <= max && |r.value.1| < |s|
  {
    if StartsDigit(s) then
      var (n, rest) := ParseNumber(s[1..], DigitValue(s[0]));
      if n <= max then Some((n, rest)) else None
    else None
  }

  function ParseInt(s: string): (r: Option<(int, string)>)
    ensures r.Some? ==> -INT_MAX - 1 <= r.value.0 <= INT_MAX && |r.value.1| < |s|
  {
    if StartsWith(s, '-') then
      match ParseUnsigned(s[1..], INT_MAX + 1)
      case Some((n, rest)) => Some((-n, rest))
      case None => None
    else
      ParseUnsigned(if StartsWith(s, '+') then s[1..] else s, INT_MAX)
  }

  function ParseVar(s: string): (r: (Var, string))
    ensures |r.1| <= |s|
  {
    if s != "" && IsAlpha(s[0]) then
      var (name, rest) := ParseAlnums(s[1..]);
      (Name([s[0]] + name), rest)
    else
      match ParseInt(s)
      case Some((n, rest)) => (Index(n), rest)
      case None => (Next, s)
  }

  function ApplyFlag(f: Flags, c: char): Flags {
    match c
    case '-' => f.(left := true)
    case '+' => f.(showpos := true)
    case ' ' => f.(zero := false)
    case '0' => f.(zero := true)
    case _ => f
  }

  function ParseFlags(s: string, f: Flags): (r: (Flags, string))
    ensures |r.1| <= |s|
    decreases |s|
  {
    if s != "" && IsFlag(s[0]) then ParseFlags(s[1..], ApplyFlag(f, s[0])) else (f, s)
  }

  /** What follows the flags of a directive: an optional width and the format letter. */
  function ParseWidthAndFormat(flags: Flags, s: string): (r: Option<(Item, string)>)
    ensures r.Some? ==> |r.value.1| < |s|
  {
    var (width, rest) :=
      match ParseUnsigned(s, UINT_MAX)
      case Some((n, rest)) => (Some(n), rest)
      case None => (None, s);
    if rest != "" && IsFormat(rest[0]) then
      Some((Directive(Legacy(flags, width, rest[0])), rest[1..]))
    else None
  }

  function ParseLegacy(s: string): (r: Option<(Item, string)>)
    ensures r.Some? ==> |r.value.1| < |s|
  {
    if StartsWith(s, '%') then
      var (flags, rest) := ParseFlags(s[1..], Flags(false, false, false));
      ParseWidthAndFormat(flags, rest)
    else None
  }

  function ParseFmt(s: string): (r: (Item, string))
    ensures |r.1| <= |s|
    decreases |s|, 0
  {
    var (v, rest) := ParseVar(s);
    if StartsWith(rest, '?') then
      var (body, rest') := ParsePhrase(rest[1..]);
      (Branch(v, body), rest')
    else (Plain(v), rest)
  }

  function ParseItem(s: string): (r: Option<(Item, string)>)
    ensures r.Some? ==> |r.value.1| < |s|
    decreases |s|, 1
  {
    if StartsWith(s, '{') then
      var (item, rest) := ParseFmt(s[1..]);
      if StartsWith(rest, '}') then Some((item, rest[1..])) else None
    else ParseLegacy(s)
  }

  function ParsePhrase(s: string): (r: (Phrase, string))
    ensures |r.1| <= |s|
    decreases |s|, 2
  {
    var (text, rest) := ParseLiteral(s);
    match ParseItem(rest)
    case None => (End(text), rest)
    case Some((item, rest')) =>
      var (phrase, rest'') := ParsePhrase(rest');
      (More(text, item, phrase), rest'')
  }

  /** A format string is valid when the grammar reads all of it. */
  function Parse(s: string): Option<Phrase> {
    var (phrase, rest) := ParsePhrase(s);
    if rest == "" then Some(phrase) else None
  }

  // ---------------------------------------------------------------------
  // Rendering, in front of the string `k`.

  function Put(c: char, k: string): (s: string)
    ensures s != "" && s[0] == c && s[1..] == k
  {
    [c] + k
  }

  function RenderLiteral(text: string, k: string): string {
    if text == "" then k
    else
      var tail := Put(text[0], RenderLiteral(text[1..], k));
      if IsSpecial(text[0]) then Put('\\', tail) else tail
  }

  function Digit(n: nat): (c: char)
    requires n < 10
    ensures IsDigit(c) && DigitValue(c) == n && (n > 0 ==> c != '0')
  {
    '0' + n as char
  }

  function RenderNumber(n: nat, k: string): string {
    if n < 10 then Put(Digit(n), k) else RenderNumber(n / 10, Put(Digit(n % 10), k))
  }

  function RenderName(name: string, k: string): string {
    if name == "" then k else Put(name[0], RenderName(name[1..], k))
  }

  function RenderVar(v: Var, k: string): string {
    match v
    case Next => k
    case Index(n) => if n < 0 then Put('-', RenderNumber(-n, k)) else RenderNumber(n, k)
    case Name(name) => RenderName(name, k)
  }

  function RenderFlags(f: Flags, k: string): string {
    var k1 := if f.zero then Put('0', k) else k;
    var k2 := if f.showpos then Put('+', k1) else k1;
    if f.left then Put('-', k2) else k2
  }

  function RenderWidthAndFormat(l: Legacy, k: string): string {
    var tail := Put(l.fmt, k);
    if l.width.Some? && l.width.value >= 0 then RenderNumber(l.width.value, tail) else tail
  }

  function RenderItem(item: Item, k: string): string
    decreases item
  {
    match item
    case Plain(v) => Put('{', RenderVar(v, Put('}', k)))
    case Branch(cond, body) => Put('{', RenderVar(cond, Put('?', RenderPhrase(body, Put('}', k)))))
    case Directive(l) => Put('%', RenderFlags(l.flags, RenderWidthAndFormat(l, k)))
  }

  function RenderPhrase(phrase: Phrase, k: string): string
    decreases phrase
  {
    match phrase
    case End(text) => RenderLiteral(text, k)
    case More(text, item, rest) => RenderLiteral(text, RenderItem(item, RenderPhrase(rest, k)))
  }

  function Render(phrase: Phrase): string {
    RenderPhrase(phrase, "")
  }

  // ---------------------------------------------------------------------
  // The phrases that a format string can denote.

  predicate IsIdentifier(s: string) {
    s != "" && IsAlpha(s[0]) && AllAlnum(s[1..])
  }

  predicate AllAlnum(s: string) {
    s == "" || (IsAlnum(s[0]) && AllAlnum(s[1..]))
  }

  predicate ValidVar(v: Var) {
    match v
    case Next => true
    case Index(n) => -INT_MAX - 1 <= n <= INT_MAX
    case Name(name) => IsIdentifier(name)
  }

  predicate ValidItem(item: Item) {
    match item
    case Plain(v) => ValidVar(v)
    case Branch(cond, body) => ValidVar(cond) && ValidPhrase(body)
    case Directive(l) => IsFormat(l.fmt) && (l.width.Some? ==> 1 <= l.width.value <= UINT_MAX)
  }

  predicate ValidPhrase(phrase: Phrase) {
    match phrase
    case End(_) => true
    case More(_, item, rest) => ValidItem(item) && ValidPhrase(rest)
  }

  // ---------------------------------------------------------------------
  // Reading back what was rendered.

  /** Where a literal ends: at the end of the string or at a special character other than the escape. */
  predicate EndsLiteral(s: string) {
    s != "" ==> s[0] == '{' || s[0] == '}' || s[0] == '%'
  }

  lemma {:induction false} LiteralRoundTrip(text: string, k: string)
    requires EndsLiteral(k)
    ensures ParseLiteral(RenderLiteral(text, k)) == (text, k)
    decreases |text|
  {
    if text != "" {
      LiteralRoundTrip(text[1..], k);
      assert text == [text[0]] + text[1..];
      var tail := Put(text[0], RenderLiteral(text[1..], k));
      if IsSpecial(text[0]) {
        var s := Put('\\', tail);
        assert s[2..] == s[1..][1..];
      }
    }
  }

  lemma {:induction false} NumberRoundTrip(n: nat, k: string)
    ensures StartsDigit(RenderNumber(n, k)) && (n > 0 ==> RenderNumber(n, k)[0] != '0')
    ensures ParseNumber(RenderNumber(n, k), 0) == ParseNumber(k, n)
  {
    if n >= 10 {
      var tail := Put(Digit(n % 10), k);
      NumberRoundTrip(n / 10, tail);
      assert ParseNumber(tail, n / 10) == ParseNumber(k, 10 * (n / 10) + n % 10);
    }
  }

  lemma UnsignedRoundTrip(n: nat, k: string, max: int)
    requires n <= max && !StartsDigit(k)
    ensures ParseUnsigned(RenderNumber(n, k), max) == Some((n, k))
  {
    NumberRoundTrip(n, k);
  }

  lemma {:induction false} NameRoundTrip(name: string, k: string)
    requires AllAlnum(name) && !StartsAlnum(k)
    ensures ParseAlnums(RenderName(name, k)) == (name, k)
    decreases |name|
  {
    if name != "" {
      NameRoundTrip(name[1..], k);
      assert name == [name[0]] + name[1..];
    }
  }

  lemma VarRoundTrip(v: Var, k: string)
    requires ValidVar(v) && (StartsWith(k, '?') || StartsWith(k, '}'))
    ensures ParseVar(RenderVar(v, k)) == (v, k)
  {
    match v
    case Next =>
    case Index(n) =>
      if n < 0 {
        UnsignedRoundTrip(-n, k, INT_MAX + 1);
      } else {
        UnsignedRoundTrip(n, k, INT_MAX);
        NumberRoundTrip(n, k);
      }
    case Name(name) =>
      NameRoundTrip(name[1..], k);
      assert name == [name[0]] + name[1..];
  }

  lemma FlagsRoundTrip(f: Flags, k: string)
    requires k != "" && !IsFlag(k[0])
    ensures ParseFlags(RenderFlags(f, k), Flags(false, false, false)) == (f, k)
  {
    var k1 := if f.zero then Put('0', k) else k;
    var k2 := if f.showpos then Put('+', k1) else k1;
    assert ParseFlags(k1, Flags(f.left, f.showpos, false)) == (f, k);
    assert ParseFlags(k2, Flags(f.left, false, false)) == (f, k);
  }

  predicate AllFlags(s: string) {
    forall i :: 0 <= i < |s| ==> IsFlag(s[i])
  }

  /** The last of the flags that set the padding, if any. */
  function LastPadding(s: string): Option<char> {
    if s == "" then None
    else
      var c := s[|s| - 1];
      if c == ' ' || c == '0' then Some(c) else LastPadding(s[..|s| - 1])
  }

  /** Any order and repetition of flags: each has its effect, and the last one decides the padding. */
  lemma {:induction false} FlagsMeaning(s: string, k: string)
    requires AllFlags(s) && (k != "" ==> !IsFlag(k[0]))
    ensures
      var (f, rest) := ParseFlags(s + k, Flags(false, false, false));
      && rest == k
      && f == Flags('-' in s, '+' in s, LastPadding(s) == Some('0'))
  {
    FlagsFrom(s, k, 0, Flags(false, false, false));
    assert (s + k)[0..] == s + k;
  }

  lemma {:induction false} FlagsFrom(s: string, k: string, i: nat, f: Flags)
    requires AllFlags(s) && (k != "" ==> !IsFlag(k[0])) && i <= |s|
    requires f == Flags('-' in s[..i], '+' in s[..i], LastPadding(s[..i]) == Some('0'))
    ensures ParseFlags((s + k)[i..], f) == (Flags('-' in s, '+' in s, LastPadding(s) == Some('0')), k)
    decreases |s| - i
  {
    var t := (s + k)[i..];
    if i == |s| {
      assert t == k && s[..i] == s;
    } else {
      assert t[0] == s[i] && t[1..] == (s + k)[i + 1..];
      assert s[..i + 1] == s[..i] + [s[i]] && s[..i + 1][..i] == s[..i];
      FlagsFrom(s, k, i + 1, ApplyFlag(f, s[i]));
    }
  }

  lemma WidthAndFormatRoundTrip(l: Legacy, k: string)
    requires ValidItem(Directive(l))
    ensures ParseWidthAndFormat(l.flags, RenderWidthAndFormat(l, k)) == Some((Directive(l), k))
    ensures
      var s := RenderWidthAndFormat(l, k);
      s != "" && !IsFlag(s[0])
  {
    var tail := Put(l.fmt, k);
    if l.width.Some? {
      UnsignedRoundTrip(l.width.value, tail, UINT_MAX);
      NumberRoundTrip(l.width.value, tail);
    }
  }

  lemma {:induction false} ItemRoundTrip(item: Item, k: string)
    requires ValidItem(item)
    ensures ParseItem(RenderItem(item, k)) == Some((item, k))
    decreases item
  {
    match item
    case Plain(v) =>
      VarRoundTrip(v, Put('}', k));
    case Branch(cond, body) =>
      PhraseRoundTrip(body, Put('}', k));
      VarRoundTrip(cond, Put('?', RenderPhrase(body, Put('}', k))));
    case Directive(l) =>
      WidthAndFormatRoundTrip(l, k);
      FlagsRoundTrip(l.flags, RenderWidthAndFormat(l, k));
  }

  lemma {:induction false} PhraseRoundTrip(phrase: Phrase, k: string)
    requires ValidPhrase(phrase) && (k != "" ==> k[0] == '}')
    ensures ParsePhrase(RenderPhrase(phrase, k)) == (phrase, k)
    decreases phrase
  {
    match phrase
    case End(text) =>
      LiteralRoundTrip(text, k);
    case More(text, item, rest) =>
      PhraseRoundTrip(rest, k);
      ItemRoundTrip(item, RenderPhrase(rest, k));
      LiteralRoundTrip(text, RenderItem(item, RenderPhrase(rest, k)));
  }

  /** Parsing the rendering of any phrase that a format can denote gives back that phrase. */
  lemma RoundTrip(phrase: Phrase)
    requires ValidPhrase(phrase)
    ensures Parse(Render(phrase)) == Some(phrase)
  {
    PhraseRoundTrip(phrase, "");
  }

  // ---------------------------------------------------------------------
  // Conversely, whatever the grammar reads is a phrase that can be rendered.

  lemma {:induction false} ReadsAlnums(s: string)
    ensures AllAlnum(ParseAlnums(s).0)
    decreases |s|
  {
    if StartsAlnum(s) {
      ReadsAlnums(s[1..]);
      var name := ParseAlnums(s[1..]).0;
      assert ([s[0]] + name)[1..] == name;
    }
  }

  lemma ReadsVar(s: string)
    ensures ValidVar(ParseVar(s).0)
  {
    if s != "" && IsAlpha(s[0]) {
      ReadsAlnums(s[1..]);
      var name := ParseAlnums(s[1..]).0;
      assert ([s[0]] + name)[1..] == name;
    }
  }

  /** All the flags are read, zeros included, so a width cannot start with zero. */
  lemma {:induction false} FlagsLeaveNoFlag(s: string, f: Flags)
    ensures
      var rest := ParseFlags(s, f).1;
      rest != "" ==> !IsFlag(rest[0])
    decreases |s|
  {
    if s != "" && IsFlag(s[0]) {
      FlagsLeaveNoFlag(s[1..], ApplyFlag(f, s[0]));
    }
  }

  lemma {:induction false} NumberGrows(s: string, n: nat)
    ensures ParseNumber(s, n).0 >= n
    decreases |s|
  {
    if StartsDigit(s) {
      NumberGrows(s[1..], 10 * n + DigitValue(s[0]));
    }
  }

  lemma ReadsLegacy(s: string)
    requires ParseLegacy(s).Some?
    ensures ValidItem(ParseLegacy(s).value.0)
  {
    FlagsLeaveNoFlag(s[1..], Flags(false, false, false));
    var rest := ParseFlags(s[1..], Flags(false, false, false)).1;
    if StartsDigit(rest) {
      NumberGrows(rest[1..], DigitValue(rest[0]));
    }
  }

  lemma {:induction false} ReadsItem(s: string)
    requires ParseItem(s).Some?
    ensures ValidItem(ParseItem(s).value.0)
    decreases |s|, 1
  {
    if StartsWith(s, '{') {
      var (v, rest) := ParseVar(s[1..]);
      ReadsVar(s[1..]);
      if StartsWith(rest, '?') {
        ReadsPhrase(rest[1..]);
      }
    } else {
      ReadsLegacy(s);
    }
  }

  lemma {:induction false} ReadsPhrase(s: string)
    ensures ValidPhrase(ParsePhrase(s).0)
    decreases |s|, 2
  {
    var (text, rest) := ParseLiteral(s);
    if ParseItem(rest).Some? {
      ReadsItem(rest);
      ReadsPhrase(ParseItem(rest).value.1);
    }
  }

  /** Rendering is a normal form: a valid format and the rendering of its parse mean the same. */
  lemma NormalForm(s: string)
    requires Parse(s).Some?
    ensures ValidPhrase(Parse(s).value)
    ensures Parse(Render(Parse(s).value)) == Parse(s)
  {
    ReadsPhrase(s);
    RoundTrip(Parse(s).value);
  }
}
