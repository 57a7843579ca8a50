/** Organisation settings: the parser and the formatter of each kind, the fall-back of an override that
    does not parse, and the check the Settings API makes before it stores a value. */
module Settings {
  import opened Text

  datatype Kind = IntKind | StrKind | BoolKind | CsvKind | CsvIntKind | FrozensetKind

  datatype Value =
    | Num(number: int)
    | Str(text: string)
    | Flag(on: bool)
    | Csv(items: seq<string>)
    | CsvInt(numbers: seq<int>)
    | Frozenset(members: set<string>)

  function KindOf(v: Value): Kind {
    match v
    case Num(_) => IntKind
    case Str(_) => StrKind
    case Flag(_) => BoolKind
    case Csv(_) => CsvKind
    case CsvInt(_) => CsvIntKind
    case Frozenset(_) => FrozensetKind
  }

  /** What Python itself decides: which characters of Unicode are decimal digits, and the order of `sorted`. */
  datatype Python = Python(digit: char -> Option<nat>, sorted: multiset<string> -> seq<string>) {
    ghost predicate Sound() {
      && (forall c | '0' <= c <= '9' :: digit(c) == Some(c as int - '0' as int))
      && (forall c | digit(c).Some? :: !IsSpace(c) && c != '+' && c != '-' && c != '_' && c != ',')
      && (forall m :: multiset(sorted(m)) == m)
    }

    // ---- int ----

    /** Digits, with single underscores between them. */
    function Digits(s: string): Option<int> {
      if s == "" || digit(Last(s)).None? then None
      else
        var d := digit(Last(s)).value;
        if |s| == 1 then Some(d)
        else
          var front := if Last(Init(s)) == '_' then Init(Init(s)) else Init(s);
          match Digits(front) { case None => None case Some(n) => Some(10 * n + d) }
    }

    /** `int(s)`; `None` is ValueError. */
    function ParseInt(s: string): Option<int> {
      var t := Strip(s);
      if t != "" && t[0] == '-' then
        match Digits(t[1..]) { case None => None case Some(n) => Some(-n) }
      else Digits(if t != "" && t[0] == '+' then t[1..] else t)
    }

    /** Every one of them, or ValueError. */
    function ParseInts(fields: seq<string>): Option<seq<int>> {
      if fields == [] then Some([])
      else match (ParseInt(fields[0]), ParseInts(fields[1..])) {
        case (Some(n), Some(rest)) => Some([n] + rest)
        case _ => None
      }
    }

    // ---- the two tables: for a bool only the lower-case ASCII letters matter ----

    /** `_PARSERS[kind](raw)`; `None` when the parser raises. */
    function Parse(kind: Kind, raw: string): Option<Value> {
      match kind
      case IntKind => (match ParseInt(raw) { case None => None case Some(n) => Some(Num(n)) })
      case StrKind => Some(Str(raw))
      case BoolKind => Some(Flag(Lower(Strip(raw)) !in {"0", "false", "no", "off", ""}))
      case CsvKind => Some(Csv(Fields(raw)))
      case CsvIntKind => (match ParseInts(Fields(raw)) { case None => None case Some(ns) => Some(CsvInt(ns)) })
      case FrozensetKind => Some(Frozenset(SetOf(Fields(raw))))
    }

    /** `_FORMATTERS[kind](v)` for a value of that kind. */
    function Format(v: Value): string {
      match v
      case Num(n) => IntText(n)
      case Str(text) => text
      case Flag(on) => if on then "1" else "0"
      case Csv(items) => Join(items, ",")
      case CsvInt(numbers) => Join(IntTexts(numbers), ",")
      case Frozenset(members) => Join(sorted(multiset(members)), ",")
    }

    /** `config.__getattr__`: an override may be absent, present, or impossible to read. */
    function Resolve(setting: Setting, stored: Override, env: map<string, string>): Option<Value> {
      var fallback := if setting.envVar in env then env[setting.envVar] else setting.defaultRaw;
      var first :=
        match stored
        case Unreadable => None
        case Unset => Parse(setting.kind, fallback)
        case Set(raw) => Parse(setting.kind, raw);
      if first.Some? then first else Parse(setting.kind, fallback)
    }

    /** The Settings API's write: the text it stores, or `None` when it answers 422. */
    function Put(v: Value): Option<string> {
      PutText(KindOf(v), Format(v))
    }

    /** The same for the list that a frozenset setting is sent as. */
    function PutSet(items: seq<string>): Option<string> {
      PutText(FrozensetKind, Join(sorted(multiset(items)), ","))
    }

    function PutText(kind: Kind, formatted: string): Option<string> {
      match Parse(kind, formatted)
      case None => None
      case Some(back) => if Format(back) == formatted then Some(formatted) else None
    }
  }

  datatype Override = Unreadable | Unset | Set(raw: string)

  datatype Setting = Setting(kind: Kind, envVar: string, defaultRaw: string)

  /** The stripped pieces between commas that are not blank. */
  function Fields(s: string): seq<string> {
    NonBlank(Split(s, ','))
  }

  function SetOf(xs: seq<string>): set<string> {
    set x | x in xs
  }

  function NonBlank(pieces: seq<string>): seq<string> {
    if pieces == [] then []
    else
      var x := Strip(pieces[0]);
      (if x == "" then [] else [x]) + NonBlank(pieces[1..])
  }

  /** `str(n)`. */
  function IntText(n: int): string {
    if n < 0 then "-" + NatText(-n) else NatText(n)
  }

  function NatText(n: nat): (s: string)
    ensures s != "" && forall c | c in s :: '0' <= c <= '9'
  {
    var last := [(n % 10 + '0' as int) as char];
    if n < 10 then last else NatText(n / 10) + last
  }

  function IntTexts(numbers: seq<int>): seq<string> {
    if numbers == [] then [] else [IntText(numbers[0])] + IntTexts(numbers[1..])
  }

  /** A list element that comes back as it was. */
  predicate Clean(x: string) {
    x != "" && Trimmed(x) && ',' !in x
  }

  predicate AllClean(xs: seq<string>) {
    forall i | 0 <= i < |xs| :: Clean(xs[i])
  }

  /** The values that survive the trip through their text. */
  predicate Faithful(v: Value) {
    match v
    case Csv(items) => AllClean(items)
    case Frozenset(members) => forall x | x in members :: Clean(x)
    case _ => true
  }

  // ---- lists ----

  lemma {:induction false} NonBlankIsClean(pieces: seq<string>)
    requires forall i | 0 <= i < |pieces| :: ',' !in pieces[i]
    ensures AllClean(NonBlank(pieces))
  {
    if pieces != [] {
      StripWithin(pieces[0]);
      NonBlankIsClean(pieces[1..]);
    }
  }

  lemma FieldsAreClean(s: string)
    ensures AllClean(Fields(s))
  {
    SplitFromPieces("", s, ',');
    NonBlankIsClean(Split(s, ','));
  }

  lemma {:induction false} CleanIsKept(xs: seq<string>)
    requires AllClean(xs)
    ensures NonBlank(xs) == xs
  {
    if xs != [] {
      StripTrimmed(xs[0]);
      CleanIsKept(xs[1..]);
    }
  }

  /** A list comes back from its comma-joined text exactly when every element is clean. */
  lemma CsvRoundTrip(items: seq<string>)
    ensures Fields(Join(items, ",")) == items <==> AllClean(items)
  {
    FieldsAreClean(Join(items, ","));
    if items == [] {
      StripTrimmed("");
      assert NonBlank([""]) == [] + NonBlank([""][1..]) == [];
    } else if AllClean(items) {
      JoinSplit(items, ',');
      CleanIsKept(items);
    }
  }

  // ---- integers ----

  lemma {:induction false} NatRoundTrip(py: Python, n: nat)
    requires py.Sound()
    ensures py.Digits(NatText(n)) == Some(n)
  {
    var s := NatText(n);
    var c := (n % 10 + '0' as int) as char;
    assert Last(s) == c && '0' <= c <= '9' && py.digit(c) == Some(n % 10);
    if n >= 10 {
      NatRoundTrip(py, n / 10);
      assert Init(s) == NatText(n / 10);
      assert Last(Init(s)) in NatText(n / 10);
    }
  }

  lemma IntTextClean(n: int)
    ensures Clean(IntText(n))
  {
    var s := IntText(n);
    assert forall c | c in s :: c == '-' || '0' <= c <= '9';
    assert s[0] in s && s[|s| - 1] in s;
  }

  lemma IntRoundTrip(py: Python, n: int)
    requires py.Sound()
    ensures py.ParseInt(IntText(n)) == Some(n)
  {
    IntTextClean(n);
    StripTrimmed(IntText(n));
    if n < 0 {
      NatRoundTrip(py, -n);
      assert IntText(n)[1..] == NatText(-n);
    } else {
      NatRoundTrip(py, n);
      assert NatText(n)[0] in NatText(n);
    }
  }

  /** A plus sign and space around the digits do not matter, nor does a single underscore between two of them. */
  lemma SpelledInts(py: Python, n: nat, before: string, after: string)
    requires py.Sound() && Blank(before) && Blank(after)
    ensures py.ParseInt(before + ("+" + NatText(n)) + after) == Some(n)
  {
    var t := "+" + NatText(n);
    IntTextClean(n);
    assert t[|t| - 1] == NatText(n)[|NatText(n)| - 1] && t[0] == '+' && t[1..] == NatText(n);
    StripOf(before, t, after);
    NatRoundTrip(py, n);
  }

  /** Digits, with single underscores between two of them. */
  predicate Spelled(py: Python, s: string) {
    && s != "" && py.digit(s[0]).Some? && py.digit(Last(s)).Some?
    && (forall i | 0 <= i < |s| :: s[i] == '_' || py.digit(s[i]).Some?)
    && (forall i | 0 < i < |s| :: !(s[i - 1] == '_' && s[i] == '_'))
  }

  /** Nothing else is a number: `int` raises on any other text. */
  lemma {:induction false} DigitsAreSpelled(py: Python, s: string)
    requires py.Sound()
    ensures py.Digits(s).Some? <==> Spelled(py, s)
    decreases |s|
  {
    if s != "" && py.digit(Last(s)).Some? && |s| > 1 {
      var front := if Last(Init(s)) == '_' then Init(Init(s)) else Init(s);
      DigitsAreSpelled(py, front);
      assert Last(s) == s[|s| - 1] && Last(Init(s)) == s[|s| - 2];
      assert forall i | 0 <= i < |front| :: front[i] == s[i];
      if front != "" { assert Last(front) == s[|front| - 1]; }
    }
  }

  /** A list of numbers parses exactly when every field does, and then to these numbers. */
  lemma {:induction false} AllParse(py: Python, fields: seq<string>)
    ensures py.ParseInts(fields).None? <==> exists i | 0 <= i < |fields| :: py.ParseInt(fields[i]).None?
    ensures py.ParseInts(fields).Some? ==>
              && |py.ParseInts(fields).value| == |fields|
              && forall i | 0 <= i < |fields| :: py.ParseInt(fields[i]) == Some(py.ParseInts(fields).value[i])
  {
    if fields != [] {
      AllParse(py, fields[1..]);
      assert forall i | 1 <= i < |fields| :: fields[i] == fields[1..][i - 1];
    }
  }

  lemma Underscored(py: Python, s: string, c: char)
    requires py.Sound() && s != "" && Last(s) != '_' && py.digit(c).Some?
    ensures py.Digits(s + "_" + [c]) == py.Digits(s + [c])
  {
    assert Init(s + "_" + [c]) == s + "_" && Init(s + "_") == s && Init(s + [c]) == s;
  }

  lemma {:induction false} IntsRoundTrip(py: Python, numbers: seq<int>)
    requires py.Sound()
    ensures AllClean(IntTexts(numbers)) && py.ParseInts(IntTexts(numbers)) == Some(numbers)
  {
    if numbers != [] {
      IntTextClean(numbers[0]);
      IntRoundTrip(py, numbers[0]);
      IntsRoundTrip(py, numbers[1..]);
      assert IntTexts(numbers)[1..] == IntTexts(numbers[1..]);
      assert numbers == [numbers[0]] + numbers[1..];
    }
  }

  // ---- the tables ----

  lemma SortedHasTheSame(py: Python, members: set<string>, x: string)
    requires py.Sound()
    ensures x in py.sorted(multiset(members)) <==> x in members
  {
    var order := py.sorted(multiset(members));
    assert x in order <==> x in multiset(order);
  }

  lemma CleanSetReadsBack(py: Python, members: set<string>, order: seq<string>)
    requires py.Sound() && order == py.sorted(multiset(members)) && forall x | x in members :: Clean(x)
    ensures SetOf(Fields(Join(order, ","))) == members
  {
    forall x ensures x in order <==> x in members { SortedHasTheSame(py, members, x); }
    assert AllClean(order);
    CsvRoundTrip(order);
  }

  lemma FrozensetRoundTrip(py: Python, members: set<string>)
    requires py.Sound()
    ensures py.Parse(FrozensetKind, py.Format(Frozenset(members))) == Some(Frozenset(members))
       <==> forall x | x in members :: Clean(x)
  {
    var order := py.sorted(multiset(members));
    FieldsAreClean(Join(order, ","));
    if forall x | x in members :: Clean(x) {
      CleanSetReadsBack(py, members, order);
    }
  }

  lemma BoolRoundTrip(py: Python, on: bool)
    ensures py.Parse(BoolKind, py.Format(Flag(on))) == Some(Flag(on))
  {
    var s := if on then "1" else "0";
    StripTrimmed(s);
    assert Lower(s) == s;
  }

  /** `parse(format(v)) == v` for exactly the faithful values. */
  lemma FormatThenParse(py: Python, v: Value)
    requires py.Sound()
    ensures py.Parse(KindOf(v), py.Format(v)) == Some(v) <==> Faithful(v)
  {
    match v
    case Num(n) => IntRoundTrip(py, n);
    case Str(_) =>
    case Flag(on) => BoolRoundTrip(py, on);
    case Csv(items) => CsvRoundTrip(items);
    case CsvInt(numbers) =>
      IntsRoundTrip(py, numbers);
      CsvRoundTrip(IntTexts(numbers));
    case Frozenset(members) => FrozensetRoundTrip(py, members);
  }

  /** `parse(format(parse(s))) == parse(s)` for every text that parses. */
  lemma ParseFormatParse(py: Python, kind: Kind, raw: string)
    requires py.Sound() && py.Parse(kind, raw).Some?
    ensures var v := py.Parse(kind, raw).value;
            KindOf(v) == kind && Faithful(v) && py.Parse(kind, py.Format(v)) == Some(v)
  {
    var v := py.Parse(kind, raw).value;
    FieldsAreClean(raw);
    FormatThenParse(py, v);
  }

  // ---- what a setting reads as ----

  /** An override that cannot be read or parsed acts as one that is not there; one that parses decides. */
  lemma BadOverrideActsAsUnset(py: Python, setting: Setting, stored: Override, env: map<string, string>)
    ensures var parsed := if stored.Set? then py.Parse(setting.kind, stored.raw) else None;
      py.Resolve(setting, stored, env) == if parsed.Some? then parsed else py.Resolve(setting, Unset, env)
  {
  }

  /** Without an override the environment decides, and without that the default. */
  lemma UnsetReads(py: Python, setting: Setting, env: map<string, string>)
    ensures setting.envVar in env ==> py.Resolve(setting, Unset, env) == py.Parse(setting.kind, env[setting.envVar])
    ensures setting.envVar !in env ==> py.Resolve(setting, Unset, env) == py.Parse(setting.kind, setting.defaultRaw)
  {
  }

  predicate SameButForCase(s: string, word: string) {
    |s| == |word| && forall i | 0 <= i < |s| :: s[i] == word[i] || ('A' <= s[i] <= 'Z' && s[i] - 'A' + 'a' == word[i])
  }

  lemma LowerIs(s: string, word: string)
    requires forall i | 0 <= i < |word| :: !('A' <= word[i] <= 'Z')
    ensures Lower(s) == word <==> SameButForCase(s, word)
  {
    if SameButForCase(s, word) {
      assert forall i | 0 <= i < |s| :: Lower(s)[i] == word[i];
    }
    if Lower(s) == word {
      assert forall i | 0 <= i < |s| :: LowerChar(s[i]) == word[i];
    }
  }

  /** A bool setting is off exactly for these words, in any case and with any space around them. */
  lemma OffWords(py: Python, raw: string)
    ensures py.Parse(BoolKind, raw) == Some(Flag(false))
       <==> Strip(raw) == "" || exists word | word in {"0", "false", "no", "off"} :: SameButForCase(Strip(raw), word)
    ensures py.Parse(BoolKind, raw) in {Some(Flag(true)), Some(Flag(false))}
  {
    var s := Strip(raw);
    LowerIs(s, "0");
    LowerIs(s, "false");
    LowerIs(s, "no");
    LowerIs(s, "off");
  }

  /** What the API stored for a faithful value is what the setting then reads as, whatever the environment. */
  lemma StoredReadsBack(py: Python, setting: Setting, v: Value, env: map<string, string>)
    requires py.Sound() && KindOf(v) == setting.kind && Faithful(v)
    ensures py.Put(v) == Some(py.Format(v))
    ensures py.Resolve(setting, Set(py.Format(v)), env) == Some(v)
  {
    FormatThenParse(py, v);
  }

  // ---- the check before a write ----

  predicate PiecesClean(items: seq<string>) {
    forall i | 0 <= i < |items| :: AllClean(Split(items[i], ','))
  }

  /** The pieces of all items, in order. */
  function Pieces(items: seq<string>): seq<string> {
    if items == [] then [] else Split(items[0], ',') + Pieces(items[1..])
  }

  lemma {:induction false} SplitOfJoin(items: seq<string>)
    requires items != []
    ensures Split(Join(items, ","), ',') == Pieces(items)
  {
    if |items| > 1 {
      SplitOfJoin(items[1..]);
      SplitBetween(items[0], Join(items[1..], ","), ',');
    } else {
      assert Pieces(items[1..]) == [];
    }
  }

  lemma {:induction false} PiecesAreClean(items: seq<string>)
    ensures AllClean(Pieces(items)) <==> PiecesClean(items)
  {
    if items != [] {
      var a, tail := Split(items[0], ','), items[1..];
      PiecesAreClean(tail);
      AllCleanConcat(a, Pieces(tail));
      assert forall i | 1 <= i < |items| :: items[i] == tail[i - 1];
      assert forall i | 0 <= i < |tail| :: tail[i] == items[i + 1];
    }
  }

  lemma AllCleanConcat(a: seq<string>, b: seq<string>)
    ensures AllClean(a + b) <==> AllClean(a) && AllClean(b)
  {
    if AllClean(a + b) {
      assert forall i | 0 <= i < |a| :: (a + b)[i] == a[i];
      assert forall i | 0 <= i < |b| :: (a + b)[|a| + i] == b[i];
    }
  }

  lemma ReformatsTheSame(text: string)
    ensures Join(Fields(text), ",") == text <==> text == "" || AllClean(Split(text, ','))
  {
    FieldsAreClean(text);
    if text == "" {
      CsvRoundTrip([]);
    } else {
      if AllClean(Split(text, ',')) {
        CleanIsKept(Split(text, ','));
        JoinSplitFrom("", text, ',');
        assert "" + text == text;
      }
      if Join(Fields(text), ",") == text {
        JoinSplit(Fields(text), ',');
      }
    }
  }

  /** Which lists the API stores: it compares texts, so also some that do not come back as they were, namely
      `[""]` and lists with an element that holds a comma between clean pieces. */
  lemma PutOfCsv(py: Python, items: seq<string>)
    ensures py.Put(Csv(items)).Some?
       <==> (items == [] || items == [""] || PiecesClean(items))
    ensures py.Put(Csv(items)).Some? && py.Parse(CsvKind, py.Format(Csv(items))) != Some(Csv(items))
       <==> (items == [""] || (PiecesClean(items) && exists i | 0 <= i < |items| :: ',' in items[i]))
  {
    var text := Join(items, ",");
    ReformatsTheSame(text);
    CsvRoundTrip(items);
    if items != [] {
      SplitOfJoin(items);
      PiecesAreClean(items);
      assert text == "" <==> items == [""];
    }
    forall i | 0 <= i < |items| && ',' !in items[i]
      ensures AllClean(Split(items[i], ',')) <==> Clean(items[i])
    {
      SplitPlain(items[i], ',');
      assert AllClean([items[i]]) <==> Clean([items[i]][0]);
    }
    if items == [""] {
      SplitPlain("", ',');
      assert !Clean(items[0]) && !AllClean(items);
    }
  }

  /** The text of a frozenset is the same after a round trip exactly when its pieces are clean, distinct and in
      the order of `sorted`. */
  lemma ReformatsTheSameSet(py: Python, text: string)
    requires py.Sound()
    ensures py.Format(Frozenset(SetOf(Fields(text)))) == text
       <==> (text == "" || (AllClean(Split(text, ',')) && InOrder(py, Split(text, ','))))
  {
    var found := SetOf(Fields(text));
    var order := py.sorted(multiset(found));
    FieldsAreClean(text);
    forall x ensures x in order <==> x in found { SortedHasTheSame(py, found, x); }
    assert SetOf(order) == found && forall i | 0 <= i < |order| :: order[i] in found;
    if text == "" {
      CsvRoundTrip([]);
      assert found == {};
      SortedEmpty(py);
    } else {
      if AllClean(Split(text, ',')) {
        CleanIsKept(Split(text, ','));
        JoinSplitFrom("", text, ',');
        assert "" + text == text;
      }
      if Join(order, ",") == text {
        JoinSplit(order, ',');
        CleanIsKept(order);
      }
    }
  }

  lemma SortedEmpty(py: Python)
    requires py.Sound()
    ensures py.sorted(multiset{}) == []
  {
    assert |multiset(py.sorted(multiset{}))| == |py.sorted(multiset{})|;
  }

  predicate InOrder(py: Python, xs: seq<string>) {
    xs == py.sorted(multiset(SetOf(xs)))
  }

  lemma SameElements(py: Python, items: seq<string>, x: string)
    requires py.Sound()
    ensures x in py.sorted(multiset(items)) <==> x in items
  {
    var order := py.sorted(multiset(items));
    assert x in order <==> x in multiset(order);
    assert x in items <==> x in multiset(items);
  }

  lemma SamePieces(py: Python, items: seq<string>, order: seq<string>)
    requires py.Sound() && order == py.sorted(multiset(items))
    ensures PiecesClean(order) <==> PiecesClean(items)
    ensures order == [] <==> items == []
    ensures order == [""] <==> items == [""]
  {
    forall x ensures x in order <==> x in items { SameElements(py, items, x); }
    assert forall i | 0 <= i < |order| :: order[i] in items;
    assert forall i | 0 <= i < |items| :: items[i] in order;
    assert |order| == |multiset(order)| == |items|;
  }

  /** Items whose pieces are clean are clean themselves, unless they hold a comma. */
  lemma CleanWithoutComma(items: seq<string>, x: string)
    requires PiecesClean(items) && x in items && ',' !in x
    ensures Clean(x)
  {
    var i :| 0 <= i < |items| && items[i] == x;
    SplitPlain(x, ',');
    assert Clean([x][0]);
  }

  lemma SameSet(a: seq<string>, b: seq<string>)
    requires forall x :: x in a <==> x in b
    ensures SetOf(a) == SetOf(b)
  {
    var s, t := SetOf(a), SetOf(b);
    forall x ensures x in s <==> x in t { }
    assert s == t;
  }

  lemma FieldsHoldNoComma(s: string)
    ensures forall x | x in Fields(s) :: ',' !in x
  {
    FieldsAreClean(s);
  }

  lemma DifferentSets(a: seq<string>, b: seq<string>, x: string)
    requires x !in a && x in b
    ensures SetOf(a) != SetOf(b)
  {
    assert x in SetOf(b) && x !in SetOf(a);
  }

  lemma ReadBack(items: seq<string>, order: seq<string>)
    requires PiecesClean(order) && forall x :: x in order <==> x in items
    ensures SetOf(Fields(Join(order, ","))) == SetOf(items) <==> forall x | x in items :: ',' !in x
  {
    var fields := Fields(Join(order, ","));
    FieldsHoldNoComma(Join(order, ","));
    if forall x | x in items :: ',' !in x {
      forall i | 0 <= i < |order| ensures Clean(order[i]) {
        assert order[i] in order && order[i] in items;
        CleanWithoutComma(order, order[i]);
      }
      CsvRoundTrip(order);
      SameSet(fields, items);
    } else {
      var x :| x in items && ',' in x;
      DifferentSets(fields, items, x);
    }
  }

  lemma {:induction false} NoDuplicatesIs(xs: seq<string>)
    ensures NoDuplicates(xs) <==> forall x :: multiset(xs)[x] <= 1
  {
    if xs != [] {
      var head, tail := xs[0], xs[1..];
      NoDuplicatesIs(tail);
      assert xs == [head] + tail && multiset(xs) == multiset{head} + multiset(tail);
      assert head in tail <==> multiset(tail)[head] >= 1;
      OneMore(head, tail);
      forall x ensures multiset(xs)[x] == multiset(tail)[x] + if x == head then 1 else 0 { }
      assert multiset(xs)[head] <= 1 <==> head !in tail;
    }
  }

  lemma OneMore(head: string, tail: seq<string>)
    ensures NoDuplicates([head] + tail) <==> NoDuplicates(tail) && head !in tail
  {
    var xs := [head] + tail;
    assert forall i | 0 <= i < |tail| :: tail[i] == xs[i + 1];
    if head in tail {
      var i :| 0 <= i < |tail| && tail[i] == head;
      assert xs[0] == xs[i + 1];
    }
  }

  lemma DistinctParts(a: seq<string>, b: seq<string>)
    requires a != [] && NoDuplicates(a + b)
    ensures NoDuplicates(b) && a[0] !in b
  {
    var xs := a + b;
    forall i | 0 <= i < |b| ensures b[i] != a[0] {
      assert xs[0] == a[0] && xs[|a| + i] == b[i];
    }
    forall i, j | 0 <= i < j < |b| ensures b[i] != b[j] {
      assert xs[|a| + i] == b[i] && xs[|a| + j] == b[j];
    }
  }

  lemma {:induction false} DistinctPieces(items: seq<string>)
    requires NoDuplicates(Pieces(items))
    ensures NoDuplicates(items)
  {
    if items != [] {
      var a, tail := Split(items[0], ','), items[1..];
      DistinctParts(a, Pieces(tail));
      DistinctPieces(tail);
      if items[0] in tail {
        FirstPiece(tail, items[0]);
      }
      assert items == [items[0]] + tail;
      OneMore(items[0], tail);
    }
  }

  lemma {:induction false} FirstPiece(items: seq<string>, x: string)
    requires x in items
    ensures Split(x, ',')[0] in Pieces(items)
  {
    if items[0] != x {
      FirstPiece(items[1..], x);
    } else {
      assert Split(x, ',')[0] == Pieces(items)[0];
    }
  }

  /** A list with duplicates is refused. */
  lemma DuplicatesAreRefused(py: Python, items: seq<string>)
    requires py.Sound() && py.PutSet(items).Some?
    ensures NoDuplicates(items)
  {
    PutOfFrozenset(py, items);
    if items != [] && items != [""] {
      var order := py.sorted(multiset(items));
      var found := SetOf(Pieces(order));
      NoDuplicatesIs(Pieces(order));
      assert multiset(Pieces(order)) == multiset(found);
      DistinctPieces(order);
      NoDuplicatesIs(order);
      NoDuplicatesIs(items);
    }
  }

  /** Which lists a frozenset setting is stored from: those whose items have clean pieces that, taken in the order
      of the sorted items, are distinct and sorted.  And which of those read back as another set: `[""]`, and
      lists with an item that holds a comma. */
  lemma PutOfFrozenset(py: Python, items: seq<string>)
    requires py.Sound()
    ensures var stored := items == [] || items == [""]
                       || (PiecesClean(items) && InOrder(py, Pieces(py.sorted(multiset(items)))));
      && (py.PutSet(items).Some? <==> stored)
      && (stored ==> py.PutSet(items) == Some(Join(py.sorted(multiset(items)), ",")))
      && (stored && py.Parse(FrozensetKind, py.PutSet(items).value) != Some(Frozenset(SetOf(items)))
          <==> stored && exists x | x in items :: x == "" || ',' in x)
  {
    SetIsStored(py, items);
    if py.PutSet(items).Some? {
      SetReadsBack(py, items);
      var fields := SetOf(Fields(py.PutSet(items).value));
      assert py.Parse(FrozensetKind, py.PutSet(items).value) == Some(Frozenset(fields));
      assert Frozenset(fields) == Frozenset(SetOf(items)) <==> fields == SetOf(items);
    }
  }

  lemma SetIsStored(py: Python, items: seq<string>)
    requires py.Sound()
    ensures var stored := items == [] || items == [""]
                       || (PiecesClean(items) && InOrder(py, Pieces(py.sorted(multiset(items)))));
            py.PutSet(items) == if stored then Some(Join(py.sorted(multiset(items)), ",")) else None
  {
    var order := py.sorted(multiset(items));
    ReformatsTheSameSet(py, Join(order, ","));
    SamePieces(py, items, order);
    if items != [] && items != [""] {
      SortedText(items, order);
    }
  }

  lemma SetReadsBack(py: Python, items: seq<string>)
    requires py.Sound() && (items == [] || items == [""] || PiecesClean(items))
    ensures SetOf(Fields(Join(py.sorted(multiset(items)), ","))) != SetOf(items) <==> exists x | x in items :: x == "" || ',' in x
  {
    var order := py.sorted(multiset(items));
    SamePieces(py, items, order);
    if items == [] || items == [""] {
      CsvRoundTrip([]);
      assert items == [""] ==> "" in SetOf(items);
    } else {
      forall x ensures x in order <==> x in items { SameElements(py, items, x); }
      ReadBack(items, order);
      if "" in items { CleanWithoutComma(items, ""); }
    }
  }

  lemma SortedText(items: seq<string>, order: seq<string>)
    requires order != [] && order != [""] && (PiecesClean(order) <==> PiecesClean(items))
    ensures Join(order, ",") != "" && Split(Join(order, ","), ',') == Pieces(order)
    ensures AllClean(Pieces(order)) <==> PiecesClean(items)
  {
    if Join(order, ",") == "" { EmptyJoin(order); }
    SplitOfJoin(order);
    PiecesAreClean(order);
  }

  lemma EmptyJoin(items: seq<string>)
    requires Join(items, ",") == ""
    ensures items == [] || items == [""]
  {
  }
}
