/**
 The interpreter of formats. It walks the phrase from left to right and counts
 the arguments it used so far; text under a false condition is not written but
 its arguments still count.

 The interpreter is compared with a static meaning in which the argument of
 each item is fixed by its position alone. The two agree exactly on the formats
 that have no `%%` under a condition.
 */
module FormatPrinter {
  import opened Options
  import opened FormatParser

  /** An argument: which one it is, and its truth value if its type has one. */
  datatype Argument = Argument(id: int, truth: Option<bool>)

  datatype Token =
    | Text(text: string)
    | Show(argument: Argument, style: Option<Legacy>)
    | PercentSign(legacy: Legacy)

  datatype Failure =
    | InvalidFormat
    | TooFewArguments(needed: int)
    | TooManyArguments
    | MissingName(name: string)
    | NotATruthValue
    | NegativeIndex(n: int)

  datatype Env = Env(args: seq<Argument>, named: map<string, Argument>)
  {
    function Nth(n: int): Result<Argument, Failure> {
      if n >= |args| then Err(TooFewArguments(n + 1))
      else if n < 0 then Err(NegativeIndex(n))
      else Ok(args[n])
    }

    function Named(name: string): Result<Argument, Failure> {
      if name in named then Ok(named[name]) else Err(MissingName(name))
    }
  }

  function Truth(a: Result<Argument, Failure>): Result<bool, Failure> {
    match a
    case Err(e) => Err(e)
    case Ok(x) => if x.truth.Some? then Ok(x.truth.value) else Err(NotATruthValue)
  }

  function Shown(a: Result<Argument, Failure>, style: Option<Legacy>): Result<seq<Token>, Failure> {
    match a
    case Err(e) => Err(e)
    case Ok(x) => Ok([Show(x, style)])
  }

  // ---------------------------------------------------------------------
  // The interpreter.

  datatype State = State(count: int, fullPositional: bool, out: seq<Token>)
  {
    function Write(tokens: Result<seq<Token>, Failure>): Result<State, Failure> {
      match tokens
      case Err(e) => Err(e)
      case Ok(ts) => Ok(this.(out := out + ts))
    }

    function WriteNext(tokens: Result<seq<Token>, Failure>): Result<State, Failure> {
      match tokens
      case Err(e) => Err(e)
      case Ok(ts) => Ok(this.(out := out + ts, count := count + 1))
    }
  }

  function RunVar(v: Var, env: Env, st: State, p: bool): Result<State, Failure> {
    match v
    case Next => st.WriteNext(if p then Shown(env.Nth(st.count), None) else Ok([]))
    case Index(n) => st.(fullPositional := false).Write(if p then Shown(env.Nth(n), None) else Ok([]))
    case Name(name) =>
      match env.Named(name)
      case Err(e) => Err(e)
      case Ok(x) => st.Write(if p then Ok([Show(x, None)]) else Ok([]))
  }

  function RunDirective(l: Legacy, env: Env, st: State, p: bool): Result<State, Failure> {
    if !p then Ok(st.(count := st.count + 1))
    else if l.fmt == '%' then st.Write(Ok([PercentSign(l)]))
    else st.WriteNext(Shown(env.Nth(st.count), Some(l)))
  }

  /** Whether the text under `cond` is written. */
  function RunCondition(cond: Var, env: Env, count: int, p: bool): Result<bool, Failure> {
    match cond
    case Next => if p then Truth(env.Nth(count)) else Ok(false)
    case Index(n) => if p then Truth(env.Nth(n)) else Ok(false)
    case Name(name) =>
      match env.Named(name)
      case Err(e) => Err(e)
      case Ok(x) => if p then Truth(Ok(x)) else Ok(false)
  }

  function RunItem(item: Item, env: Env, st: State, p: bool): Result<State, Failure>
    decreases item
  {
    match item
    case Plain(v) => RunVar(v, env, st, p)
    case Directive(l) => RunDirective(l, env, st, p)
    case Branch(cond, body) =>
      match RunCondition(cond, env, st.count, p)
      case Err(e) => Err(e)
      case Ok(p') => RunPhrase(body, env, st.(count := st.count + VarWidth(cond)), p')
  }

  function RunPhrase(phrase: Phrase, env: Env, st: State, p: bool): Result<State, Failure>
    decreases phrase
  {
    match phrase
    case End(text) => st.Write(Ok(if p then [Text(text)] else []))
    case More(text, item, rest) =>
      match RunItem(item, env, st.(out := st.out + if p then [Text(text)] else []), p)
      case Err(e) => Err(e)
      case Ok(st') => RunPhrase(rest, env, st', p)
  }

  const START := State(0, true, [])

  function Print(format: string, env: Env): Result<seq<Token>, Failure> {
    match Parse(format)
    case None => Err(InvalidFormat)
    case Some(phrase) =>
      match RunPhrase(phrase, env, START, true)
      case Err(e) => Err(e)
      case Ok(st) => if st.fullPositional && st.count < |env.args| then Err(TooManyArguments) else Ok(st.out)
  }

  // ---------------------------------------------------------------------
  // The static meaning.

  function VarWidth(v: Var): nat {
    if v.Next? then 1 else 0
  }

  /** How many sequential arguments an item stands for, by its text alone. */
  function ItemWidth(item: Item): nat
    decreases item
  {
    match item
    case Plain(v) => VarWidth(v)
    case Directive(l) => if l.fmt == '%' then 0 else 1
    case Branch(cond, body) => VarWidth(cond) + Width(body)
  }

  function Width(phrase: Phrase): nat
    decreases phrase
  {
    match phrase
    case End(_) => 0
    case More(_, item, rest) => ItemWidth(item) + Width(rest)
  }

  /** Whether an item names an argument by position, other than as a condition. */
  predicate ItemHasIndex(item: Item)
    decreases item
  {
    match item
    case Plain(v) => v.Index?
    case Directive(_) => false
    case Branch(_, body) => HasIndex(body)
  }

  predicate HasIndex(phrase: Phrase)
    decreases phrase
  {
    match phrase
    case End(_) => false
    case More(_, item, rest) => ItemHasIndex(item) || HasIndex(rest)
  }

  function Then(a: Result<seq<Token>, Failure>, b: Result<seq<Token>, Failure>): Result<seq<Token>, Failure> {
    match a
    case Err(e) => Err(e)
    case Ok(x) =>
      match b
      case Err(e) => Err(e)
      case Ok(y) => Ok(x + y)
  }

  function VarMeaning(v: Var, slot: int, env: Env, p: bool): Result<seq<Token>, Failure> {
    match v
    case Next => if p then Shown(env.Nth(slot), None) else Ok([])
    case Index(n) => if p then Shown(env.Nth(n), None) else Ok([])
    case Name(name) => if p || env.Named(name).Err? then Shown(env.Named(name), None) else Ok([])
  }

  /** What an item writes when its first argument is number `slot`. */
  function ItemMeaning(item: Item, slot: int, env: Env, p: bool): Result<seq<Token>, Failure>
    decreases item
  {
    match item
    case Plain(v) => VarMeaning(v, slot, env, p)
    case Directive(l) =>
      if !p then Ok([])
      else if l.fmt == '%' then Ok([PercentSign(l)])
      else Shown(env.Nth(slot), Some(l))
    case Branch(cond, body) =>
      match RunCondition(cond, env, slot, p)
      case Err(e) => Err(e)
      case Ok(p') => Meaning(body, slot + VarWidth(cond), env, p')
  }

  function Meaning(phrase: Phrase, slot: int, env: Env, p: bool): Result<seq<Token>, Failure>
    decreases phrase
  {
    match phrase
    case End(text) => Ok(if p then [Text(text)] else [])
    case More(text, item, rest) =>
      Then(Ok(if p then [Text(text)] else []),
           Then(ItemMeaning(item, slot, env, p), Meaning(rest, slot + ItemWidth(item), env, p)))
  }

  /** How many `%%` there are in an item, all of them. */
  function ItemPercents(item: Item): nat
    decreases item
  {
    match item
    case Plain(_) => 0
    case Directive(l) => if l.fmt == '%' then 1 else 0
    case Branch(_, body) => Percents(body)
  }

  function Percents(phrase: Phrase): nat
    decreases phrase
  {
    match phrase
    case End(_) => 0
    case More(_, item, rest) => ItemPercents(item) + Percents(rest)
  }

  /** How many `%%` stand under a condition. */
  function PercentsBeneath(phrase: Phrase): nat
    decreases phrase
  {
    match phrase
    case End(_) => 0
    case More(_, item, rest) => (if item.Branch? then Percents(item.body) else 0) + PercentsBeneath(rest)
  }

  /** No `%%` will be met while text is suppressed. */
  predicate Regular(phrase: Phrase, p: bool) {
    if p then PercentsBeneath(phrase) == 0 else Percents(phrase) == 0
  }

  /** The run of the interpreter that writes `tokens`, uses `width` arguments and meets an index or not. */
  function Static(st: State, tokens: Result<seq<Token>, Failure>, width: nat, indexed: bool): Result<State, Failure> {
    match tokens
    case Err(e) => Err(e)
    case Ok(ts) => Ok(State(st.count + width, st.fullPositional && !indexed, st.out + ts))
  }

  lemma {:induction false} ItemIsStatic(item: Item, env: Env, st: State, p: bool)
    requires if p then (item.Branch? ==> Percents(item.body) == 0) else ItemPercents(item) == 0
    ensures RunItem(item, env, st, p) ==
              Static(st, ItemMeaning(item, st.count, env, p), ItemWidth(item), ItemHasIndex(item))
    decreases item
  {
    match item
    case Plain(v) =>
      assert st.out + [] == st.out;
    case Directive(l) =>
      assert st.out + [] == st.out;
    case Branch(cond, body) =>
      var c := RunCondition(cond, env, st.count, p);
      if c.Ok? {
        BeneathAtMostAll(body);
        PhraseIsStatic(body, env, st.(count := st.count + VarWidth(cond)), c.value);
      }
  }

  lemma {:induction false} PhraseIsStatic(phrase: Phrase, env: Env, st: State, p: bool)
    requires Regular(phrase, p)
    ensures RunPhrase(phrase, env, st, p) ==
              Static(st, Meaning(phrase, st.count, env, p), Width(phrase), HasIndex(phrase))
    decreases phrase
  {
    match phrase
    case End(text) =>
    case More(text, item, rest) =>
      var written := if p then [Text(text)] else [];
      var st1 := st.(out := st.out + written);
      var x, y := ItemMeaning(item, st.count, env, p), Meaning(rest, st.count + ItemWidth(item), env, p);
      ItemIsStatic(item, env, st1, p);
      if x.Ok? {
        var st2 := RunItem(item, env, st1, p).value;
        PhraseIsStatic(rest, env, st2, p);
      }
      StaticThen(st, written, x, y, ItemWidth(item), Width(rest), ItemHasIndex(item), HasIndex(rest));
  }

  lemma StaticThen(
    st: State, text: seq<Token>, x: Result<seq<Token>, Failure>, y: Result<seq<Token>, Failure>,
    width: nat, width': nat, indexed: bool, indexed': bool)
    ensures
      (match Static(st.(out := st.out + text), x, width, indexed)
       case Err(e) => Err(e)
       case Ok(st') => Static(st', y, width', indexed'))
      == Static(st, Then(Ok(text), Then(x, y)), width + width', indexed || indexed')
  {
    if x.Ok? && y.Ok? {
      assert (st.out + text) + x.value + y.value == st.out + (text + (x.value + y.value));
    }
  }

  lemma {:induction false} BeneathAtMostAll(phrase: Phrase)
    ensures PercentsBeneath(phrase) <= Percents(phrase)
    decreases phrase
  {
    if phrase.More? {
      BeneathAtMostAll(phrase.rest);
    }
  }

  /** Suppressed text writes nothing, whatever it contains. */
  lemma {:induction false} SuppressedItemIsSilent(item: Item, env: Env, st: State)
    ensures
      var r := RunItem(item, env, st, false);
      r.Ok? ==> r.value.out == st.out
    decreases item
  {
    if item.Branch? {
      SuppressedIsSilent(item.body, env, st.(count := st.count + VarWidth(item.cond)));
    }
  }

  lemma {:induction false} SuppressedIsSilent(phrase: Phrase, env: Env, st: State)
    ensures
      var r := RunPhrase(phrase, env, st, false);
      r.Ok? ==> r.value.out == st.out
    decreases phrase
  {
    if phrase.More? {
      var st1 := st.(out := st.out + []);
      SuppressedItemIsSilent(phrase.item, env, st1);
      var r := RunItem(phrase.item, env, st1, false);
      if r.Ok? {
        SuppressedIsSilent(phrase.rest, env, r.value);
      }
    }
  }

  /**
   A format with no `%%` under a condition prints its static meaning; it is
   rejected for unused arguments exactly when it names none by position and
   stands for fewer than there are.
   */
  lemma PrintIsStatic(format: string, env: Env)
    requires Parse(format).Some? && PercentsBeneath(Parse(format).value) == 0
    ensures
      var phrase := Parse(format).value;
      Print(format, env) ==
        match Meaning(phrase, 0, env, true)
        case Err(e) => Err(e)
        case Ok(tokens) =>
          if !HasIndex(phrase) && Width(phrase) < |env.args| then Err(TooManyArguments) else Ok(tokens)
  {
    var phrase := Parse(format).value;
    PhraseIsStatic(phrase, env, START, true);
    var m := Meaning(phrase, 0, env, true);
    if m.Ok? {
      assert [] + m.value == m.value;
    }
  }

  // ---------------------------------------------------------------------
  // When the slots are not fixed.

  /** The same arguments but for their truth values. */
  predicate SameButTruth(env: Env, env': Env) {
    && |env.args| == |env'.args| && env.named.Keys == env'.named.Keys
    && (forall i :: 0 <= i < |env.args| ==> env.args[i].id == env'.args[i].id)
    && (forall name :: name in env.named ==> env.named[name].id == env'.named[name].id)
  }

  /** How many arguments are used does not depend on their truth values. */
  ghost predicate SlotsFixed(phrase: Phrase) {
    forall env: Env, env': Env | SameButTruth(env, env') ::
      var r, r' := RunPhrase(phrase, env, START, true), RunPhrase(phrase, env', START, true);
      r.Ok? && r'.Ok? ==> r.value.count == r'.value.count
  }

  predicate ItemIndicesBelow(item: Item, n: int)
    decreases item
  {
    match item
    case Plain(v) => v.Index? ==> 0 <= v.n < n
    case Directive(_) => true
    case Branch(cond, body) => (cond.Index? ==> 0 <= cond.n < n) && IndicesBelow(body, n)
  }

  predicate IndicesBelow(phrase: Phrase, n: int)
    decreases phrase
  {
    match phrase
    case End(_) => true
    case More(_, item, rest) => ItemIndicesBelow(item, n) && IndicesBelow(rest, n)
  }

  predicate ItemNamesIn(item: Item, names: set<string>)
    decreases item
  {
    match item
    case Plain(v) => v.Name? ==> v.name in names
    case Directive(_) => true
    case Branch(cond, body) => (cond.Name? ==> cond.name in names) && NamesIn(body, names)
  }

  predicate NamesIn(phrase: Phrase, names: set<string>)
    decreases phrase
  {
    match phrase
    case End(_) => true
    case More(_, item, rest) => ItemNamesIn(item, names) && NamesIn(rest, names)
  }

  /** Arguments of the same truth value, `n` by position and one for each of `names`. */
  function All(truth: bool, n: nat, names: set<string>): Env {
    Env(seq(n, _ => Argument(0, Some(truth))), map name | name in names :: Argument(0, Some(truth)))
  }

  /** With false arguments every `%%` under a condition counts as an argument. */
  lemma {:induction false} FalseRunOfItem(item: Item, n: nat, names: set<string>, st: State, p: bool)
    requires ItemIndicesBelow(item, n) && ItemNamesIn(item, names)
    requires 0 <= st.count && (p ==> st.count + ItemWidth(item) <= n)
    ensures
      var r := RunItem(item, All(false, n, names), st, p);
      && r.Ok?
      && r.value.count == st.count + ItemWidth(item) + if item.Branch? || !p then ItemPercents(item) else 0
    decreases item
  {
    if item.Branch? {
      FalseRun(item.body, n, names, st.(count := st.count + VarWidth(item.cond)), false);
    }
  }

  lemma {:induction false} FalseRun(phrase: Phrase, n: nat, names: set<string>, st: State, p: bool)
    requires IndicesBelow(phrase, n) && NamesIn(phrase, names)
    requires 0 <= st.count && (p ==> st.count + Width(phrase) + PercentsBeneath(phrase) <= n)
    ensures
      var r := RunPhrase(phrase, All(false, n, names), st, p);
      && r.Ok?
      && r.value.count == st.count + Width(phrase) + if p then PercentsBeneath(phrase) else Percents(phrase)
    decreases phrase
  {
    if phrase.More? {
      var st1 := st.(out := st.out + if p then [Text(phrase.text)] else []);
      FalseRunOfItem(phrase.item, n, names, st1, p);
      FalseRun(phrase.rest, n, names, RunItem(phrase.item, All(false, n, names), st1, p).value, p);
    }
  }

  /** With true arguments no `%%` counts. */
  lemma {:induction false} TrueRunOfItem(item: Item, n: nat, names: set<string>, st: State)
    requires ItemIndicesBelow(item, n) && ItemNamesIn(item, names)
    requires 0 <= st.count && st.count + ItemWidth(item) <= n
    ensures
      var r := RunItem(item, All(true, n, names), st, true);
      r.Ok? && r.value.count == st.count + ItemWidth(item)
    decreases item
  {
    if item.Branch? {
      TrueRun(item.body, n, names, st.(count := st.count + VarWidth(item.cond)));
    }
  }

  lemma {:induction false} TrueRun(phrase: Phrase, n: nat, names: set<string>, st: State)
    requires IndicesBelow(phrase, n) && NamesIn(phrase, names)
    requires 0 <= st.count && st.count + Width(phrase) <= n
    ensures
      var r := RunPhrase(phrase, All(true, n, names), st, true);
      r.Ok? && r.value.count == st.count + Width(phrase)
    decreases phrase
  {
    if phrase.More? {
      var st1 := st.(out := st.out + [Text(phrase.text)]);
      TrueRunOfItem(phrase.item, n, names, st1);
      TrueRun(phrase.rest, n, names, RunItem(phrase.item, All(true, n, names), st1, true).value);
    }
  }

  function VarNames(v: Var): set<string> {
    if v.Name? then {v.name} else {}
  }

  function ItemNames(item: Item): set<string>
    decreases item
  {
    match item
    case Plain(v) => VarNames(v)
    case Directive(_) => {}
    case Branch(cond, body) => VarNames(cond) + Names(body)
  }

  function Names(phrase: Phrase): set<string>
    decreases phrase
  {
    match phrase
    case End(_) => {}
    case More(_, item, rest) => ItemNames(item) + Names(rest)
  }

  lemma {:induction false} ItemNamesSuffice(item: Item, names: set<string>)
    requires ItemNames(item) <= names
    ensures ItemNamesIn(item, names)
    decreases item
  {
    if item.Branch? {
      NamesSuffice(item.body, names);
    }
  }

  lemma {:induction false} NamesSuffice(phrase: Phrase, names: set<string>)
    requires Names(phrase) <= names
    ensures NamesIn(phrase, names)
    decreases phrase
  {
    if phrase.More? {
      ItemNamesSuffice(phrase.item, names);
      NamesSuffice(phrase.rest, names);
    }
  }

  lemma {:induction false} IndicesMonotone(phrase: Phrase, n: int, m: int)
    requires IndicesBelow(phrase, n) && n <= m
    ensures IndicesBelow(phrase, m)
    decreases phrase
  {
    if phrase.More? {
      if phrase.item.Branch? {
        IndicesMonotone(phrase.item.body, n, m);
      }
      IndicesMonotone(phrase.rest, n, m);
    }
  }

  /** The interpreter has the static meaning on every argument list. */
  ghost predicate MeansStatically(phrase: Phrase) {
    forall env: Env ::
      RunPhrase(phrase, env, START, true) ==
        Static(START, Meaning(phrase, 0, env, true), Width(phrase), HasIndex(phrase))
  }

  /** The interpreter and the static meaning agree exactly on the phrases with no `%%` under a condition. */
  lemma StaticExactly(phrase: Phrase, n: nat)
    requires IndicesBelow(phrase, n)
    ensures MeansStatically(phrase) <==> PercentsBeneath(phrase) == 0
  {
    if PercentsBeneath(phrase) == 0 {
      forall env: Env
        ensures RunPhrase(phrase, env, START, true) ==
                  Static(START, Meaning(phrase, 0, env, true), Width(phrase), HasIndex(phrase))
      {
        PhraseIsStatic(phrase, env, START, true);
      }
    } else {
      var m, names := n + Width(phrase) + PercentsBeneath(phrase), Names(phrase);
      IndicesMonotone(phrase, n, m);
      NamesSuffice(phrase, names);
      FalseRun(phrase, m, names, START, true);
      var env := All(false, m, names);
      assert RunPhrase(phrase, env, START, true) !=
             Static(START, Meaning(phrase, 0, env, true), Width(phrase), HasIndex(phrase));
    }
  }

  /**
   The interpreter uses the same arguments whatever their truth values exactly
   when no `%%` stands under a condition. (Indices must exist in some argument
   list, that is, none is negative.)
   */
  lemma SlotsFixedExactly(phrase: Phrase, n: nat)
    requires IndicesBelow(phrase, n)
    ensures SlotsFixed(phrase) <==> PercentsBeneath(phrase) == 0
  {
    if PercentsBeneath(phrase) == 0 {
      forall env: Env, env': Env | SameButTruth(env, env')
        ensures
          var r, r' := RunPhrase(phrase, env, START, true), RunPhrase(phrase, env', START, true);
          r.Ok? && r'.Ok? ==> r.value.count == r'.value.count
      {
        PhraseIsStatic(phrase, env, START, true);
        PhraseIsStatic(phrase, env', START, true);
      }
    } else {
      var m, names := n + Width(phrase) + PercentsBeneath(phrase), Names(phrase);
      IndicesMonotone(phrase, n, m);
      NamesSuffice(phrase, names);
      FalseRun(phrase, m, names, START, true);
      TrueRun(phrase, m, names, START);
      assert SameButTruth(All(false, m, names), All(true, m, names));
    }
  }

  // ---------------------------------------------------------------------
  // The interpreter as it is written, updating its state by reference.

  class Printer {
    var count: int
    var fullPositional: bool
    var out: seq<Token>

    ghost function Abs(): State
      reads this
    {
      State(count, fullPositional, out)
    }

    constructor ()
      ensures Abs() == START
    {
      count, fullPositional, out := 0, true, [];
    }

    method PrintNth(n: int, style: Option<Legacy>, env: Env) returns (r: Result<(), Failure>)
      modifies this`out
      ensures r == match env.Nth(n) case Ok(_) => Ok(()) case Err(e) => Err(e)
      ensures out == old(out) + if r.Ok? then [Show(env.Nth(n).value, style)] else []
    {
      var x := env.Nth(n);
      if x.Err? {
        return Err(x.error);
      }
      out := out + [Show(x.value, style)];
      return Ok(());
    }

    /** The truth value of an argument, if it exists and has one. */
    method Test(x: Result<Argument, Failure>) returns (r: Result<(), Failure>, b: bool)
      ensures Truth(x) == match r case Ok(_) => Ok(b) case Err(e) => Err(e)
    {
      if x.Err? {
        return Err(x.error), false;
      }
      if x.value.truth.None? {
        return Err(NotATruthValue), false;
      }
      return Ok(()), x.value.truth.value;
    }

    method PrintItem(item: Item, env: Env, p: bool) returns (r: Result<(), Failure>)
      modifies this
      ensures RunItem(item, env, old(Abs()), p) == match r case Ok(_) => Ok(Abs()) case Err(e) => Err(e)
      decreases item
    {
      r := Ok(());
      assert out + [] == out;
      match item
      case Plain(Next) =>
        if p {
          r := PrintNth(count, None, env);
          if r.Err? { return; }
        }
        count := count + 1;
      case Plain(Index(n)) =>
        fullPositional := false;
        if p {
          r := PrintNth(n, None, env);
        }
      case Plain(Name(name)) =>
        if name !in env.named {
          return Err(MissingName(name));
        } else if p {
          out := out + [Show(env.named[name], None)];
        }
      case Directive(l) =>
        if p {
          if l.fmt == '%' {
            out := out + [PercentSign(l)];
            return;
          }
          r := PrintNth(count, Some(l), env);
          if r.Err? { return; }
        }
        count := count + 1;
      case Branch(cond, body) =>
        var p' := p;
        match cond {
          case Next =>
            if p {
              r, p' := Test(env.Nth(count));
              if r.Err? { return; }
            }
            count := count + 1;
          case Index(n) =>
            if p {
              r, p' := Test(env.Nth(n));
              if r.Err? { return; }
            }
          case Name(name) =>
            if name !in env.named {
              return Err(MissingName(name));
            }
            if p {
              r, p' := Test(Ok(env.named[name]));
              if r.Err? { return; }
            }
        }
        r := PrintPhrase(body, env, p');
    }

    method PrintPhrase(phrase: Phrase, env: Env, p: bool) returns (r: Result<(), Failure>)
      modifies this
      ensures RunPhrase(phrase, env, old(Abs()), p) == match r case Ok(_) => Ok(Abs()) case Err(e) => Err(e)
      decreases phrase
    {
      r := Ok(());
      assert out + [] == out;
      if p {
        out := out + [Text(phrase.text)];
      }
      if phrase.More? {
        r := PrintItem(phrase.item, env, p);
        if r.Ok? {
          r := PrintPhrase(phrase.rest, env, p);
        }
      }
    }
  }
}
