/** Small types and string helpers shared by the modules. */
module Common {
  datatype Option<+T> = None | Some(value: T)

  datatype Result<+T, +E> = Ok(value: T) | Err(error: E)

  /** The pieces of `s` between occurrences of `sep`; `n` separators give `n + 1` pieces. */
  function Split(s: string, sep: char): (parts: seq<string>)
    ensures |parts| >= 1
    decreases |s|
  {
    if s == [] then [""]
    else if s[0] == sep then [""] + Split(s[1..], sep)
    else
      var rest := Split(s[1..], sep);
      [[s[0]] + rest[0]] + rest[1..]
  }

  /** No piece contains the separator. */
  lemma {:induction false} SplitAvoids(s: string, sep: char)
    ensures forall p :: p in Split(s, sep) ==> sep !in p
  {
    if s != [] {
      SplitAvoids(s[1..], sep);
      var rest := Split(s[1..], sep);
      forall p | p in Split(s, sep) ensures sep !in p {
        if s[0] == sep {
          assert p == "" || p in rest;
        } else {
          assert p == [s[0]] + rest[0] || p in rest[1..];
          assert rest[0] in rest;
        }
      }
    }
  }

  /** What a first character does to the pieces of the rest. */
  function Prepend(c: char, sep: char, rest: seq<string>): seq<string>
    requires rest != []
  {
    if c == sep then [""] + rest else [[c] + rest[0]] + rest[1..]
  }

  lemma SplitCons(c: char, t: string, sep: char)
    ensures Split([c] + t, sep) == Prepend(c, sep, Split(t, sep))
  {
    assert ([c] + t)[1..] == t;
  }

  lemma PrependAppend(c: char, sep: char, a: seq<string>, b: seq<string>)
    requires a != []
    ensures Prepend(c, sep, a + b) == Prepend(c, sep, a) + b
  {
    assert (a + b)[0] == a[0] && (a + b)[1..] == a[1..] + b;
  }

  /** Joining two strings with one separator concatenates their pieces. */
  lemma {:induction false} SplitJoin(a: string, sep: char, b: string)
    ensures Split(a + [sep] + b, sep) == Split(a, sep) + Split(b, sep)
    decreases |a|
  {
    if a == [] {
      assert a + [sep] + b == [sep] + b;
      SplitCons(sep, b, sep);
    } else {
      var c, t := a[0], a[1..];
      assert a == [c] + t && a + [sep] + b == [c] + (t + [sep] + b);
      SplitJoin(t, sep, b);
      SplitCons(c, t, sep);
      SplitCons(c, t + [sep] + b, sep);
      PrependAppend(c, sep, Split(t, sep), Split(b, sep));
    }
  }

  /** A string without the separator is its own only piece. */
  lemma {:induction false} SplitAtom(a: string, sep: char)
    requires sep !in a
    ensures Split(a, sep) == [a]
  {
    if a != [] {
      SplitAtom(a[1..], sep);
      assert a == [a[0]] + a[1..];
      SplitCons(a[0], a[1..], sep);
    }
  }

  lemma Reassociate<T>(a: seq<T>, b: seq<T>, c: seq<T>)
    ensures a + (b + c) == (a + b) + c
  {
  }

  predicate StartsWith(s: string, prefix: string) {
    prefix <= s
  }

  predicate EndsWith(s: string, suffix: string) {
    |suffix| <= |s| && s[|s| - |suffix|..] == suffix
  }

  /** Unicode white space, as Rust's `trim` and (with a few controls more) Python's `strip` see it. */
  predicate IsSpace(c: char) {
    || '\t' <= c <= '\r' || c == ' ' || c == '\U{85}' || c == '\U{A0}' || c == '\U{1680}'
    || '\U{2000}' <= c <= '\U{200A}' || c == '\U{2028}' || c == '\U{2029}' || c == '\U{202F}'
    || c == '\U{205F}' || c == '\U{3000}'
  }

  /** The value of decimal digits; where `underscores` says so, single ones may stand between them. */
  function ParseDigits(s: string, underscores: bool): (r: Option<int>)
    ensures r.Some? ==> r.value >= 0
  {
    if s == [] || !('0' <= s[|s| - 1] <= '9') then None
    else
      var d := s[|s| - 1] as int - '0' as int;
      if |s| == 1 then Some(d)
      else
        var front := if underscores && s[|s| - 2] == '_' then s[..|s| - 2] else s[..|s| - 1];
        match ParseDigits(front, underscores)
        case None => None
        case Some(n) => Some(10 * n + d)
  }

  // ----- decimal numbers and lists -----

  function DigitOf(d: int): char
    requires 0 <= d <= 9
  {
    "0123456789"[d]
  }

  function Decimal(n: nat): string {
    if n < 10 then [DigitOf(n)] else Decimal(n / 10) + [DigitOf(n % 10)]
  }

  lemma {:induction false} DecimalParses(n: nat, underscores: bool)
    ensures ParseDigits(Decimal(n), underscores) == Some(n)
    ensures Decimal(n) != [] && forall c :: c in Decimal(n) ==> '0' <= c <= '9'
  {
    if n >= 10 {
      DecimalParses(n / 10, underscores);
      var front := Decimal(n / 10);
      assert front[|front| - 1] in front;
      assert Decimal(n)[..|Decimal(n)| - 1] == front;
    }
  }

  /** Nothing but digits, and underscores where they are allowed, is read as a number. */
  lemma {:induction false} NumbersAreDigits(s: string, underscores: bool)
    requires ParseDigits(s, underscores).Some?
    ensures s != "" && forall c :: c in s ==> '0' <= c <= '9' || (underscores && c == '_')
  {
    var n := |s| - 1;
    assert s == s[..n] + [s[n]];
    if n > 0 {
      if underscores && s[n - 1] == '_' {
        NumbersAreDigits(s[..n - 1], underscores);
        assert s[..n] == s[..n - 1] + ['_'];
      } else {
        NumbersAreDigits(s[..n], underscores);
      }
    }
  }

  function JoinComma(parts: seq<string>): string {
    if parts == [] then ""
    else if |parts| == 1 then parts[0]
    else parts[0] + [','] + JoinComma(parts[1..])
  }

  function Decimals(ns: seq<nat>): seq<string> {
    if ns == [] then [] else [Decimal(ns[0])] + Decimals(ns[1..])
  }

  /** Splitting at the commas of a joined list gives the list back. */
  lemma {:induction false} SplitJoinComma(parts: seq<string>)
    requires parts != [] && forall p :: p in parts ==> ',' !in p
    ensures Split(JoinComma(parts), ',') == parts
  {
    SplitAtom(parts[0], ',');
    if |parts| == 1 {
      assert parts == [parts[0]];
    } else {
      SplitJoinComma(parts[1..]);
      SplitJoin(parts[0], ',', JoinComma(parts[1..]));
      assert parts == [parts[0]] + parts[1..];
    }
  }

  lemma {:induction false} DecimalsAt(ns: seq<nat>)
    ensures |Decimals(ns)| == |ns| && forall i :: 0 <= i < |ns| ==> Decimals(ns)[i] == Decimal(ns[i])
  {
    if ns != [] {
      DecimalsAt(ns[1..]);
    }
  }

  // ----- trimming -----

  function TrimStart(s: string): string {
    if s != [] && IsSpace(s[0]) then TrimStart(s[1..]) else s
  }

  function TrimEnd(s: string): string {
    if s != [] && IsSpace(s[|s| - 1]) then TrimEnd(s[..|s| - 1]) else s
  }

  function Trim(s: string): string {
    TrimEnd(TrimStart(s))
  }

  lemma TrimKeeps(s: string)
    requires s != [] && !IsSpace(s[0]) && !IsSpace(s[|s| - 1])
    ensures Trim(s) == s
  {
  }

  ghost function Pick<T>(s: set<T>): (x: T)
    requires s != {}
    ensures x in s
  {
    var x :| x in s;
    x
  }

  function Max(a: int, b: int): int {
    if a >= b then a else b
  }

  function Min(a: int, b: int): int {
    if a <= b then a else b
  }
}
