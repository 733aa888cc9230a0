/** The five-field cron parser (docker/cron_mcp.py, `_parse_field` and `parse_cron`). */
module CronSchedule {
  import opened Common

  /** Python's notion of white space. */
  predicate IsPySpace(c: char) {
    IsSpace(c) || '\U{1C}' <= c <= '\U{1F}'
  }

  function StripLeft(s: string): string {
    if s != [] && IsPySpace(s[0]) then StripLeft(s[1..]) else s
  }

  function StripRight(s: string): string {
    if s != [] && IsPySpace(s[|s| - 1]) then StripRight(s[..|s| - 1]) else s
  }

  /** `s.strip()`. */
  function Strip(s: string): string {
    StripRight(StripLeft(s))
  }

  /** `s.split()`: the maximal runs of non-space characters. */
  function Words(s: string): (ws: seq<string>)
    ensures s != [] && !IsPySpace(s[0]) ==> |ws| >= 1
  {
    if s == [] then []
    else if IsPySpace(s[0]) then Words(s[1..])
    else if |s| > 1 && !IsPySpace(s[1]) then
      var rest := Words(s[1..]);
      [[s[0]] + rest[0]] + rest[1..]
    else [[s[0]]] + Words(s[1..])
  }

  /** `int(s)`; `None` stands for `ValueError`. */
  function PyInt(s: string): Option<int> {
    var t := Strip(s);
    if t != [] && t[0] == '-' then
      match ParseDigits(t[1..], true)
      case None => None
      case Some(n) => Some(-n)
    else if t != [] && t[0] == '+' then ParseDigits(t[1..], true)
    else ParseDigits(t, true)
  }

  /** The part of `s` before its first `/`, and what follows it. */
  function Partition(s: string): (string, string)
    requires '/' in s
  {
    if s[0] == '/' then ("", s[1..])
    else
      var (a, b) := Partition(s[1..]);
      ([s[0]] + a, b)
  }

  /** The step of a `*``/N` token. */
  function StepOf(part: string): (r: Option<int>)
    requires '/' in part
    ensures r.Some? ==> r.value >= 1
  {
    var (prefix, step) := Partition(part);
    if prefix != "*" then None
    else
      match PyInt(step)
      case None => None
      case Some(n) => if n < 1 then None else Some(n)
  }

  /** A token that `_parse_field` accepts. */
  predicate Legal(part: string, lo: int, hi: int) {
    if part == "*" then true
    else if '/' in part then StepOf(part).Some?
    else PyInt(part).Some? && lo <= PyInt(part).value <= hi
  }

  /** `v` is reached from `lo` in steps of `step`. */
  predicate OnStep(lo: int, step: int, v: int)
    requires step >= 1
  {
    (v - lo) % step == 0
  }

  /** `range(lo, hi + 1, step)`. */
  function Range(lo: int, hi: int, step: int): set<int>
    requires step >= 1
  {
    set v | lo <= v <= hi && OnStep(lo, step, v)
  }

  /** The legal token `part` selects the value `v`. */
  predicate Selects(part: string, lo: int, hi: int, v: int)
    requires Legal(part, lo, hi)
  {
    if part == "*" then lo <= v <= hi
    else if '/' in part then lo <= v <= hi && OnStep(lo, StepOf(part).value, v)
    else v == PyInt(part).value
  }

  predicate AllLegal(parts: seq<string>, lo: int, hi: int) {
    forall p :: p in parts ==> Legal(Strip(p), lo, hi)
  }

  predicate SomeSelects(parts: seq<string>, lo: int, hi: int, v: int)
    requires AllLegal(parts, lo, hi)
  {
    exists p :: p in parts && Selects(Strip(p), lo, hi, v)
  }

  /** What a field means: the values some token selects, or nothing when a token is illegal. */
  function FieldValues(field: string, lo: int, hi: int): Option<set<int>> {
    var parts := Split(field, ',');
    if AllLegal(parts, lo, hi) then Some(set v | lo <= v <= hi && SomeSelects(parts, lo, hi, v))
    else None
  }

  /** Every accepted field selects at least one value: a step starts at the low end. */
  lemma FieldNeverEmpty(field: string, lo: int, hi: int)
    requires lo <= hi && FieldValues(field, lo, hi).Some?
    ensures FieldValues(field, lo, hi).value != {}
  {
    var parts := Split(field, ',');
    var p := Strip(parts[0]);
    assert Legal(p, lo, hi);
    var v := if p == "*" || '/' in p then lo else PyInt(p).value;
    assert Selects(p, lo, hi, v);
    assert v in FieldValues(field, lo, hi).value;
  }

  /** What one more token adds to a field. */
  lemma TokenSnoc(parts: seq<string>, p: string, lo: int, hi: int)
    requires AllLegal(parts, lo, hi)
    ensures AllLegal(parts + [p], lo, hi) <==> Legal(Strip(p), lo, hi)
    ensures AllLegal(parts + [p], lo, hi) ==>
              forall v :: SomeSelects(parts + [p], lo, hi, v)
                     <==> SomeSelects(parts, lo, hi, v) || Selects(Strip(p), lo, hi, v)
  {
    assert p in parts + [p];
  }

  /** The values of one token, or nothing when it is illegal. */
  method ParseToken(part: string, lo: int, hi: int) returns (r: Option<set<int>>)
    ensures r.Some? <==> Legal(part, lo, hi)
    ensures r.Some? ==> forall v :: v in r.value <==> Selects(part, lo, hi, v)
  {
    if part == "*" {
      return Some(Range(lo, hi, 1));
    } else if '/' in part {
      var step := StepOf(part);
      return if step.None? then None else Some(Range(lo, hi, step.value));
    }
    var n := PyInt(part);
    return if n.None? || !(lo <= n.value <= hi) then None else Some({n.value});
  }

  /** `_parse_field`: collects the tokens' values in a loop and gives up on the first illegal one. */
  method ParseField(field: string, lo: int, hi: int) returns (r: Option<set<int>>)
    ensures r == FieldValues(field, lo, hi)
  {
    var parts := Split(field, ',');
    var vals: set<int> := {};
    for i := 0 to |parts|
      invariant AllLegal(parts[..i], lo, hi)
      invariant forall v :: v in vals <==> SomeSelects(parts[..i], lo, hi, v)
    {
      assert parts[..i + 1] == parts[..i] + [parts[i]];
      TokenSnoc(parts[..i], parts[i], lo, hi);
      var token := ParseToken(Strip(parts[i]), lo, hi);
      if token.None? {
        assert parts[i] in parts;
        return None;
      }
      vals := vals + token.value;
    }
    assert parts[..|parts|] == parts;
    SelectedInRange(parts, lo, hi);
    assert vals == FieldValues(field, lo, hi).value;
    return Some(vals);
  }

  lemma SelectedInRange(parts: seq<string>, lo: int, hi: int)
    requires AllLegal(parts, lo, hi)
    ensures forall v :: SomeSelects(parts, lo, hi, v) ==> lo <= v <= hi
  {
  }

  /** A parsed schedule; the two flags remember whether a day field was a literal star. */
  datatype Schedule = Schedule(minutes: set<int>, hours: set<int>, doms: set<int>, months: set<int>,
                               dows: set<int>, domStar: bool, dowStar: bool)
  {
    /** What every parsed schedule satisfies. */
    predicate Valid() {
      && minutes != {} && (forall v :: v in minutes ==> 0 <= v <= 59)
      && hours != {} && (forall v :: v in hours ==> 0 <= v <= 23)
      && doms != {} && (forall v :: v in doms ==> 1 <= v <= 31)
      && months != {} && (forall v :: v in months ==> 1 <= v <= 12)
      && dows != {} && (forall v :: v in dows ==> 0 <= v <= 6)
    }
  }

  /** What a cron expression means. */
  function CronOf(expr: string): (r: Option<Schedule>) {
    var parts := Words(expr);
    if |parts| != 5 then None
    else
      match (FieldValues(parts[0], 0, 59), FieldValues(parts[1], 0, 23), FieldValues(parts[2], 1, 31),
             FieldValues(parts[3], 1, 12), FieldValues(parts[4], 0, 7))
      case (Some(minutes), Some(hours), Some(doms), Some(months), Some(rawDows)) =>
        Some(Schedule(minutes, hours, doms, months, set v | v in rawDows :: v % 7,
                      parts[2] == "*", parts[4] == "*"))
      case _ => None
  }

  /** `parse_cron`. */
  method ParseCron(expr: string) returns (r: Option<Schedule>)
    ensures r == CronOf(expr)
  {
    var parts := Words(expr);
    if |parts| != 5 {
      return None;
    }
    var minutes := ParseField(parts[0], 0, 59);
    var hours := ParseField(parts[1], 0, 23);
    var doms := ParseField(parts[2], 1, 31);
    var months := ParseField(parts[3], 1, 12);
    var rawDows := ParseField(parts[4], 0, 7);
    if minutes.None? || hours.None? || doms.None? || months.None? || rawDows.None? {
      return None;
    }
    return Some(Schedule(minutes.value, hours.value, doms.value, months.value,
                         set v | v in rawDows.value :: v % 7, parts[2] == "*", parts[4] == "*"));
  }

  /** Every accepted expression gives non-empty fields within their ranges. */
  lemma ParsedIsValid(expr: string)
    requires CronOf(expr).Some?
    ensures CronOf(expr).value.Valid()
  {
    var parts := Words(expr);
    FieldNeverEmpty(parts[0], 0, 59);
    FieldNeverEmpty(parts[1], 0, 23);
    FieldNeverEmpty(parts[2], 1, 31);
    FieldNeverEmpty(parts[3], 1, 12);
    FieldNeverEmpty(parts[4], 0, 7);
    var raw := FieldValues(parts[4], 0, 7).value;
    var v :| v in raw;
    assert v % 7 in CronOf(expr).value.dows;
  }

  // ----- what a written expression means -----

  /** A field that can stand between spaces. */
  predicate IsWord(w: string) {
    w != "" && forall c :: c in w ==> !IsPySpace(c)
  }

  lemma {:induction false} OneWord(w: string)
    requires IsWord(w)
    ensures Words(w) == [w]
  {
    assert w[0] in w;
    if |w| > 1 {
      assert w[1] in w;
      OneWord(w[1..]);
      assert [w[0]] + w[1..] == w;
    } else {
      assert w == [w[0]] && w[1..] == "";
    }
  }

  /** A word, a space and more: the word, then the words of the rest. */
  lemma {:induction false} WordsCons(w: string, rest: string)
    requires IsWord(w)
    ensures Words(w + (" " + rest)) == [w] + Words(rest)
  {
    var s := w + (" " + rest);
    assert w[0] in w && s[0] == w[0];
    if |w| > 1 {
      assert w[1] in w && s[1] == w[1];
      WordsCons(w[1..], rest);
      assert s[1..] == w[1..] + (" " + rest) && [w[0]] + w[1..] == w;
    } else {
      assert s[1..] == " " + rest && w == [w[0]] && s[1] == ' ';
      assert (" " + rest)[1..] == rest;
    }
  }

  /** Five fields in the order minute, hour, day of month, month, day of week. */
  function Expression(minute: string, hour: string, dom: string, month: string, dow: string): string {
    minute + (" " + (hour + (" " + (dom + (" " + (month + (" " + dow)))))))
  }

  lemma ExpressionWords(minute: string, hour: string, dom: string, month: string, dow: string)
    requires IsWord(minute) && IsWord(hour) && IsWord(dom) && IsWord(month) && IsWord(dow)
    ensures Words(Expression(minute, hour, dom, month, dow)) == [minute, hour, dom, month, dow]
  {
    OneWord(dow);
    WordsCons(month, dow);
    WordsCons(dom, month + (" " + dow));
    WordsCons(hour, dom + (" " + (month + (" " + dow))));
    WordsCons(minute, hour + (" " + (dom + (" " + (month + (" " + dow))))));
  }

  /** Every field of a written expression goes where it belongs, within its own range. */
  lemma ExpressionMeaning(minute: string, hour: string, dom: string, month: string, dow: string, s: Schedule)
    requires IsWord(minute) && IsWord(hour) && IsWord(dom) && IsWord(month) && IsWord(dow)
    ensures CronOf(Expression(minute, hour, dom, month, dow)) == Some(s)
       <==> && FieldValues(minute, 0, 59) == Some(s.minutes) && FieldValues(hour, 0, 23) == Some(s.hours)
            && FieldValues(dom, 1, 31) == Some(s.doms) && FieldValues(month, 1, 12) == Some(s.months)
            && FieldValues(dow, 0, 7).Some? && s.dows == (set v | v in FieldValues(dow, 0, 7).value :: v % 7)
            && s.domStar == (dom == "*") && s.dowStar == (dow == "*")
  {
    ExpressionWords(minute, hour, dom, month, dow);
  }

  /** A star is the whole range. */
  lemma StarField(lo: int, hi: int)
    ensures FieldValues("*", lo, hi).Some? && forall v :: v in FieldValues("*", lo, hi).value <==> lo <= v <= hi
  {
    SplitAtom("*", ',');
    assert Strip("*") == "*" && "*" in ["*"];
    forall v | lo <= v <= hi ensures SomeSelects(["*"], lo, hi, v) {
      assert Selects(Strip("*"), lo, hi, v);
    }
  }

  lemma StripKeeps(s: string)
    requires s != "" && !IsPySpace(s[0]) && !IsPySpace(s[|s| - 1])
    ensures Strip(s) == s
  {
  }

  /** A written number is read back as it is. */
  lemma DecimalToken(n: nat)
    ensures IsWord(Decimal(n)) && Strip(Decimal(n)) == Decimal(n) && PyInt(Decimal(n)) == Some(n)
    ensures Decimal(n) != "*" && '/' !in Decimal(n) && ',' !in Decimal(n)
  {
    DecimalParses(n, true);
    NumberWord(Decimal(n), n);
  }

  lemma NumberWord(s: string, n: nat)
    requires s != "" && (forall c :: c in s ==> '0' <= c <= '9') && ParseDigits(s, true) == Some(n)
    ensures IsWord(s) && Strip(s) == s && PyInt(s) == Some(n)
    ensures s != "*" && '/' !in s && ',' !in s
  {
    assert s[0] in s && s[|s| - 1] in s;
    StripKeeps(s);
  }

  /** A star with a step: every step-th value from the low end; a step of 0 is refused. */
  lemma StepField(n: nat, lo: int, hi: int)
    ensures FieldValues("*/" + Decimal(n), lo, hi).Some? <==> n != 0
    ensures n != 0 ==> forall v :: v in FieldValues("*/" + Decimal(n), lo, hi).value
                                   <==> lo <= v <= hi && (v - lo) % n == 0
  {
    var part := "*/" + Decimal(n);
    StepToken(n);
    SplitAtom(part, ',');
    assert part in [part];
    if n != 0 {
      assert Legal(part, lo, hi);
      forall v | lo <= v <= hi && (v - lo) % n == 0 ensures SomeSelects([part], lo, hi, v) {
        assert Selects(Strip(part), lo, hi, v);
      }
    }
  }

  lemma StepToken(n: nat)
    ensures var part := "*/" + Decimal(n);
            && Strip(part) == part && '/' in part && ',' !in part && part != "*"
            && StepOf(part) == if n == 0 then None else Some(n)
  {
    var part := "*/" + Decimal(n);
    DecimalToken(n);
    var s := Decimal(n);
    assert part[|part| - 1] == s[|s| - 1] && s[|s| - 1] in s;
    StripKeeps(part);
    assert part[1..][1..] == s && part[1] == '/';
    assert Partition(part[1..]) == ("", s);
    assert [part[0]] + "" == "*";
    assert Partition(part) == ("*", s);
  }

  /** A list of numbers: exactly those, and refused exactly if one is out of range. */
  lemma ListField(ns: seq<nat>, lo: int, hi: int)
    requires ns != []
    ensures FieldValues(JoinComma(Decimals(ns)), lo, hi)
         == if forall i :: 0 <= i < |ns| ==> lo <= ns[i] <= hi
            then Some(set i | 0 <= i < |ns| :: ns[i] as int) else None
  {
    var parts := Decimals(ns);
    DecimalsAt(ns);
    forall i | 0 <= i < |ns|
      ensures ',' !in parts[i] && Strip(parts[i]) == parts[i]
      ensures Legal(parts[i], lo, hi) <==> lo <= ns[i] <= hi
      ensures Legal(parts[i], lo, hi) ==> forall v :: Selects(parts[i], lo, hi, v) <==> v == ns[i]
    {
      DecimalToken(ns[i]);
    }
    SplitJoinComma(parts);
    if i :| 0 <= i < |ns| && !(lo <= ns[i] <= hi) {
      assert parts[i] in parts;
    } else {
      ListSelects(ns, parts, lo, hi);
    }
  }

  lemma ListSelects(ns: seq<nat>, parts: seq<string>, lo: int, hi: int)
    requires |parts| == |ns| && forall i :: 0 <= i < |ns| ==> lo <= ns[i] <= hi
    requires forall i :: 0 <= i < |ns| ==> Strip(parts[i]) == parts[i] && Legal(parts[i], lo, hi)
    requires forall i, v :: 0 <= i < |ns| ==> (Selects(parts[i], lo, hi, v) <==> v == ns[i])
    ensures AllLegal(parts, lo, hi)
    ensures (set v | lo <= v <= hi && SomeSelects(parts, lo, hi, v)) == (set i | 0 <= i < |ns| :: ns[i] as int)
  {
    forall p | p in parts ensures Legal(Strip(p), lo, hi) {
      var i :| 0 <= i < |parts| && parts[i] == p;
    }
    forall i | 0 <= i < |ns| ensures SomeSelects(parts, lo, hi, ns[i]) {
      assert parts[i] in parts && Selects(Strip(parts[i]), lo, hi, ns[i]);
    }
    forall v | SomeSelects(parts, lo, hi, v) ensures exists i :: 0 <= i < |ns| && v == ns[i] {
      var p :| p in parts && Selects(Strip(p), lo, hi, v);
      var i :| 0 <= i < |parts| && parts[i] == p;
    }
  }

  /** A comma unites what its sides select, and either side's fault is the whole field's. */
  lemma FieldUnion(a: string, b: string, lo: int, hi: int)
    ensures FieldValues(a + [','] + b, lo, hi)
         == if FieldValues(a, lo, hi).Some? && FieldValues(b, lo, hi).Some?
            then Some(FieldValues(a, lo, hi).value + FieldValues(b, lo, hi).value) else None
  {
    var left, right := Split(a, ','), Split(b, ',');
    SplitJoin(a, ',', b);
    if AllLegal(left, lo, hi) && AllLegal(right, lo, hi) {
      assert AllLegal(left + right, lo, hi);
      assert FieldValues(a + [','] + b, lo, hi).value == FieldValues(a, lo, hi).value + FieldValues(b, lo, hi).value;
    } else {
      var p :| (p in left || p in right) && !Legal(Strip(p), lo, hi);
      assert p in left + right;
    }
  }

  lemma {:induction false} PartitionAt(a: string, b: string)
    requires '/' !in a
    ensures '/' in a + ['/'] + b && Partition(a + ['/'] + b) == (a, b)
  {
    var s := a + ['/'] + b;
    if a == "" {
      assert s[0] == '/' && s[1..] == b;
    } else {
      assert s[0] == a[0] && s[1..] == a[1..] + ['/'] + b && [a[0]] + a[1..] == a;
      PartitionAt(a[1..], b);
    }
  }

  /** Only a star can have a step. */
  lemma OnlyStarsStep(a: string, b: string, lo: int, hi: int)
    requires '/' !in a && a != "*" && ',' !in a + ['/'] + b && IsWord(a + ['/'] + b)
    ensures FieldValues(a + ['/'] + b, lo, hi) == None
  {
    var part := a + ['/'] + b;
    PartitionAt(a, b);
    SplitAtom(part, ',');
    assert part[0] in part && part[|part| - 1] in part;
    StripKeeps(part);
    assert part in [part] && !Legal(part, lo, hi);
  }

  /** A field with any other character in it, a range or a name, is refused. */
  lemma OtherFieldsAreRefused(word: string, c: char, lo: int, hi: int)
    requires IsWord(word) && ',' !in word && '/' !in word && word != "*"
    requires c in word[1..] && !('0' <= c <= '9') && c != '_'
    ensures FieldValues(word, lo, hi) == None
  {
    assert word[0] in word && word[|word| - 1] in word;
    StripKeeps(word);
    SplitAtom(word, ',');
    assert c in word && word in [word];
    if PyInt(word).Some? {
      NumbersAreDigits(if word[0] == '-' || word[0] == '+' then word[1..] else word, true);
    }
    assert !Legal(word, lo, hi);
  }

  /** White space before and between words does not matter, however much of it and of which kind. */
  lemma {:induction false} WordsSkip(gap: string, rest: string)
    requires forall c :: c in gap ==> IsPySpace(c)
    ensures Words(gap + rest) == Words(rest)
  {
    if gap == "" {
      assert gap + rest == rest;
    } else {
      assert gap[0] in gap && (gap + rest)[1..] == gap[1..] + rest;
      WordsSkip(gap[1..], rest);
    }
  }

  lemma WordsGap(w: string, gap: string, rest: string)
    requires IsWord(w) && gap != "" && forall c :: c in gap ==> IsPySpace(c)
    ensures Words(w + (gap + rest)) == [w] + Words(rest)
  {
    WordBefore(w, gap + rest);
    assert gap[0] in gap;
    WordsSkip(gap, rest);
  }

  lemma {:induction false} WordBefore(w: string, more: string)
    requires IsWord(w) && more != "" && IsPySpace(more[0])
    ensures Words(w + more) == [w] + Words(more)
  {
    var s := w + more;
    assert w[0] in w && s[0] == w[0];
    if |w| > 1 {
      assert w[1] in w && s[1] == w[1];
      WordBefore(w[1..], more);
      assert s[1..] == w[1..] + more && [w[0]] + w[1..] == w;
    } else {
      assert s[1..] == more && w == [w[0]];
    }
  }

  /** The ASCII white space that separates words. */
  lemma AsciiSpaces(c: char)
    requires c < '\U{80}'
    ensures IsPySpace(c) <==> c == ' ' || '\t' <= c <= '\r' || '\U{1C}' <= c <= '\U{1F}'
  {
  }

  lemma SignedDigits(t: string, s: string, n: int)
    requires t != "" && Strip(t) == t && t[1..] == s && ParseDigits(s, true) == Some(n)
    ensures t[0] == '+' ==> PyInt(t) == Some(n)
    ensures t[0] == '-' ==> PyInt(t) == Some(-n)
  {
  }

  lemma SignStays(t: string)
    requires |t| >= 2 && (t[0] == '+' || t[0] == '-') && '0' <= t[|t| - 1] <= '9'
    ensures Strip(t) == t
  {
    StripKeeps(t);
  }

  /** Signs are read, so a negative number is out of every range. */
  lemma SignedNumber(n: int)
    requires n >= 0
    ensures PyInt(['+'] + Decimal(n)) == Some(n)
    ensures PyInt(['-'] + Decimal(n)) == Some(-n)
  {
    DecimalParses(n, true);
    var s := Decimal(n);
    assert s[|s| - 1] in s;
    SignStays(['+'] + s);
    SignStays(['-'] + s);
    SignedDigits(['+'] + s, s, n);
    SignedDigits(['-'] + s, s, n);
  }

  /** Single underscores between digits are read over, as Python's `int` does. */
  lemma Underscores(a: nat, d: char)
    requires '0' <= d <= '9'
    ensures ParseDigits(Decimal(a) + ['_', d], true) == Some(10 * a + (d as int - '0' as int))
    ensures ParseDigits(Decimal(a) + ['_', d], false) == None
    ensures ParseDigits(Decimal(a) + ['_', '_', d], true) == None
  {
    DecimalParses(a, true);
    OneUnderscore(Decimal(a), d);
    TwoUnderscores(Decimal(a), d);
  }

  lemma OneUnderscore(s: string, d: char)
    requires s != "" && '0' <= d <= '9'
    ensures ParseDigits(s + ['_', d], true)
         == if ParseDigits(s, true).None? then None
            else Some(10 * ParseDigits(s, true).value + (d as int - '0' as int))
    ensures ParseDigits(s + ['_', d], false) == None
  {
    var one := s + ['_', d];
    assert one[..|one| - 2] == s && one[..|one| - 1] == s + ['_'];
    assert ParseDigits(s + ['_'], false) == None;
  }

  lemma TwoUnderscores(s: string, d: char)
    requires s != "" && '0' <= d <= '9'
    ensures ParseDigits(s + ['_', '_', d], true) == None
  {
    var two := s + ['_', '_', d];
    assert two[..|two| - 2] == s + ['_'];
    assert ParseDigits(s + ['_'], true) == None;
  }
}
