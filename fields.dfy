// One schedule field: its text syntax (a comma list of `*`, `N`, `a-b`,
// `*` + `/N`, `/N`, `a/N`, `a-b/N`), the parser that turns it into the wildcard
// or an ascending list of values, and the two lookups the next-run search
// makes on a parsed field (GenericCronJob.php).
module Fields {
  import opened Wrappers

  /** The causes for which the source throws CronException, plus the inputs on which it never returns. */
  datatype CronError =
    | EmptyValue               // an empty field text
    | InvalidIncrement         // the text after '/' is not numeric
    | InvalidValue             // a value is not numeric
    | OutOfRange               // a value lies outside [min, max]
    | ReversedRange            // a-b with a > b
    | NonTerminating           // an increment <= 0 other than "0": the expansion loop never ends
    | InvalidCallback          // an empty callback, or one that is neither a string nor an array
    | IdInUse                  // a job with the same id is already registered

  /** A parsed field: `*`, or the values in the order the source iterates them. */
  datatype Field = Wildcard | Values(vals: seq<int>)

  // ---------------------------------------------------------------------------
  // Text helpers: strpos, explode, is_numeric and integer conversion.

  /** strpos(s, c): the first position of c in s, if any. */
  function IndexOf(s: string, c: char): (r: Option<nat>)
    ensures r.None? <==> c !in s
    ensures r.Some? ==> r.value < |s| && s[r.value] == c
    ensures r.Some? ==> forall k :: 0 <= k < r.value ==> s[k] != c
  {
    if |s| == 0 then None
    else if s[0] == c then Some(0)
    else
      match IndexOf(s[1..], c)
      case None => None
      case Some(i) => Some(i + 1)
  }

  /** explode(c, s): the pieces of s between the occurrences of c. */
  function Split(s: string, c: char): (parts: seq<string>)
    ensures |parts| >= 1
    decreases |s|
  {
    match IndexOf(s, c)
    case None => [s]
    case Some(i) => [s[..i]] + Split(s[i + 1..], c)
  }

  /** A text without the separator is a single piece. */
  lemma SplitWhole(s: string, c: char)
    requires c !in s
    ensures Split(s, c) == [s]
  {
  }

  /** A piece without the separator, then the separator: the piece comes first, then the rest's pieces. */
  lemma SplitFirst(a: string, c: char, b: string)
    requires c !in a
    ensures Split(a + [c] + b, c) == [a] + Split(b, c)
  {
    var s := a + [c] + b;
    var i := IndexOf(s, c);
    assert s[|a|] == c;
    assert forall k :: 0 <= k < |a| ==> s[k] == a[k];
    assert s[..|a|] == a;
    assert s[|a| + 1..] == b;
  }

  predicate IsDigit(ch: char) {
    '0' <= ch <= '9'
  }

  predicate IsDigits(s: string) {
    |s| > 0 && forall k :: 0 <= k < |s| ==> IsDigit(s[k])
  }

  /** is_numeric, restricted to an optional sign followed by decimal digits. */
  predicate IsNumeric(s: string) {
    IsDigits(s) || (|s| > 1 && (s[0] == '+' || s[0] == '-') && IsDigits(s[1..]))
  }

  function DigitsValue(s: string): (n: nat)
    requires IsDigits(s)
  {
    var d := (s[|s| - 1] as int) - ('0' as int);
    if |s| == 1 then d else DigitsValue(s[..|s| - 1]) * 10 + d
  }

  /** The number a numeric text denotes (PHP's numeric-string conversion). */
  function NumericValue(s: string): int
    requires IsNumeric(s)
  {
    if IsDigits(s) then DigitsValue(s)
    else if s[0] == '-' then 0 - DigitsValue(s[1..])
    else DigitsValue(s[1..])
  }

  // ---------------------------------------------------------------------------
  // Specification of the field syntax.

  /** a, a + step, a + 2 * step, ... up to and including b. */
  function StepSet(a: int, b: int, step: int): set<int>
    requires step > 0
    decreases b - a
  {
    if a > b then {} else {a} + StepSet(a + step, b, step)
  }

  lemma MulAtLeast(m: int, step: int)
    requires m >= 1 && step > 0
    ensures m * step >= step
  {
    assert m * step == (m - 1) * step + step;
    if m > 1 {
      MulAtLeast(m - 1, step);
    }
  }

  /** Two Euclidean divisions of the same number by the same divisor agree. */
  lemma DivModUnique(n: int, step: int, q: int, r: int)
    requires step > 0 && 0 <= r < step && n == q * step + r
    ensures n % step == r
  {
    var q0, r0 := n / step, n % step;
    assert n == q0 * step + r0;
    assert (q0 - q) * step == r - r0;
    if q0 - q >= 1 {
      MulAtLeast(q0 - q, step);
    } else if q - q0 >= 1 {
      MulAtLeast(q - q0, step);
    }
  }

  lemma ModShift(n: int, step: int)
    requires step > 0 && n >= step
    ensures n % step == (n - step) % step
  {
    var q, r := (n - step) / step, (n - step) % step;
    assert n - step == q * step + r;
    assert n == (q + 1) * step + r;
    DivModUnique(n, step, q + 1, r);
  }

  /** StepSet is the arithmetic progression from a with difference step, cut at b. */
  lemma {:induction false} StepSetMembers(a: int, b: int, step: int, x: int)
    requires step > 0
    ensures x in StepSet(a, b, step) <==> a <= x <= b && (x - a) % step == 0
    decreases b - a
  {
    if a <= b {
      StepSetMembers(a + step, b, step, x);
      assert StepSet(a, b, step) == {a} + StepSet(a + step, b, step);
      if x == a {
        DivModUnique(0, step, 0, 0);
      } else if x >= a + step {
        ModShift(x - a, step);
      } else if x > a {
        DivModUnique(x - a, step, 0, x - a);
      }
    }
  }

  /** validateRunIntervalValue: a numeric text whose value lies in [min, max]. */
  function ValidateRunIntervalValue(text: string, min: int, max: int): (r: Result<int, CronError>)
    ensures r.Success? <==> IsNumeric(text) && min <= NumericValue(text) <= max
    ensures r.Success? ==> r.value == NumericValue(text)
    ensures r.Failure? ==> r.error == (if IsNumeric(text) then OutOfRange else InvalidValue)
  {
    if !IsNumeric(text) then Failure(InvalidValue)
    else if NumericValue(text) < min || max < NumericValue(text) then Failure(OutOfRange)
    else Success(NumericValue(text))
  }

  /** PHP truthiness of an increment text that passed is_numeric: only "0" is false. */
  predicate Truthy(inc: string) {
    inc != ""  && inc != "0"
  }

  /** The value and the increment texts of a term, split at its first '/'; a leading '/' means `*`. */
  function SplitIncrement(term: string): (string, Option<string>)
  {
    match IndexOf(term, '/')
    case None => (term, None)
    case Some(i) => if i != 0 then (term[..i], Some(term[i + 1..])) else ("*", Some(term[1..]))
  }

  /** The values one comma-separated term contributes. */
  function ParseTerm(term: string, min: int, max: int): Result<set<int>, CronError>
    requires min <= max
  {
    var (value, inc) := SplitIncrement(term);
    if inc.Some? && !IsNumeric(inc.value) then Failure(InvalidIncrement)
    else
      var star := inc.Some? && value == "*";
      var dash := IndexOf(value, '-');
      if star || (dash.Some? && dash.value != 0) then
        var lo := if star then Success(min) else ValidateRunIntervalValue(value[..dash.value], min, max);
        var hi := if star then Success(max) else ValidateRunIntervalValue(value[dash.value + 1..], min, max);
        if lo.Failure? then Failure(lo.error)
        else if hi.Failure? then Failure(hi.error)
        else if lo.value > hi.value then Failure(ReversedRange)
        else
          var step := if inc.Some? && Truthy(inc.value) then NumericValue(inc.value) else 1;
          if step <= 0 then Failure(NonTerminating) else Success(StepSet(lo.value, hi.value, step))
      else
        var v := ValidateRunIntervalValue(value, min, max);
        if v.Failure? then Failure(v.error)
        else if inc.Some? && Truthy(inc.value) then
          var step := NumericValue(inc.value);
          if step <= 0 then Failure(NonTerminating) else Success(StepSet(v.value, max, step))
        else Success({v.value})
  }

  /** The union of the terms' values; the first failing term decides the error. */
  function ParseTerms(terms: seq<string>, min: int, max: int): Result<set<int>, CronError>
    requires min <= max
    decreases |terms|
  {
    if terms == [] then Success({})
    else
      var init := ParseTerms(terms[..|terms| - 1], min, max);
      if init.Failure? then init
      else
        var last := ParseTerm(terms[|terms| - 1], min, max);
        if last.Failure? then last else Success(init.value + last.value)
  }

  /** asort of a set of values in [lo, hi]: its members in ascending order. */
  function Ascending(s: set<int>, lo: int, hi: int): (r: seq<int>)
    ensures forall x :: x in r <==> x in s && lo <= x <= hi
    ensures forall i, j :: 0 <= i < j < |r| ==> r[i] < r[j]
    ensures forall i :: 0 <= i < |r| ==> lo <= r[i]
    decreases hi - lo
  {
    if lo > hi then []
    else if lo in s then [lo] + Ascending(s, lo + 1, hi)
    else Ascending(s, lo + 1, hi)
  }

  lemma HeadMember(b: seq<int>)
    requires b != []
    ensures b[0] in b
  {
  }

  /** Two strictly ascending lists with the same members are the same list. */
  lemma {:induction false} StrictlyAscendingUnique(a: seq<int>, b: seq<int>)
    requires forall i, j :: 0 <= i < j < |a| ==> a[i] < a[j]
    requires forall i, j :: 0 <= i < j < |b| ==> b[i] < b[j]
    requires forall x :: x in a <==> x in b
    ensures a == b
    decreases |a|
  {
    if a == [] {
      if b != [] {
        HeadMember(b);
      }
    } else {
      assert a[0] in a;
      assert a[0] in b;
      assert b[0] in a;
      assert a[0] == b[0];
      forall x ensures x in a[1..] <==> x in b[1..] {
        assert x in a[1..] <==> x in a && x != a[0];
        assert x in b[1..] <==> x in b && x != b[0];
      }
      StrictlyAscendingUnique(a[1..], b[1..]);
      assert a == [a[0]] + a[1..];
      assert b == [b[0]] + b[1..];
    }
  }

  /** The ascending listing of a set is its only strictly ascending listing within [lo, hi]. */
  lemma AscendingUnique(s: set<int>, lo: int, hi: int, r: seq<int>)
    requires forall i, j :: 0 <= i < j < |r| ==> r[i] < r[j]
    requires forall x :: x in r <==> x in s && lo <= x <= hi
    ensures Ascending(s, lo, hi) == r
  {
    StrictlyAscendingUnique(Ascending(s, lo, hi), r);
  }

  /** The list a, a + step, a + 2 * step, ... up to and including b. */
  function Progression(a: int, b: int, step: int): (r: seq<int>)
    requires step > 0
    ensures forall x :: x in r <==> x in StepSet(a, b, step)
    ensures forall i, j :: 0 <= i < j < |r| ==> r[i] < r[j]
    ensures forall i :: 0 <= i < |r| ==> a <= r[i]
    decreases b - a
  {
    if a > b then [] else [a] + Progression(a + step, b, step)
  }

  /** The values of a stepped term within the field's bounds, sorted, are its progression. */
  lemma AscendingStepSet(a: int, b: int, step: int, lo: int, hi: int)
    requires step > 0 && lo <= a && b <= hi
    ensures Ascending(StepSet(a, b, step), lo, hi) == Progression(a, b, step)
  {
    forall x ensures x in Progression(a, b, step) <==> x in StepSet(a, b, step) && lo <= x <= hi {
      StepSetMembers(a, b, step, x);
    }
    AscendingUnique(StepSet(a, b, step), lo, hi, Progression(a, b, step));
  }

  /** What parseRunIntervalValue returns or throws for a field text. */
  function ParseSpec(text: string, min: int, max: int): Result<seq<int>, CronError>
    requires min <= max
  {
    if text == "" then Failure(EmptyValue)
    else
      match ParseTerms(Split(text, ','), min, max)
      case Failure(e) => Failure(e)
      case Success(s) => Success(Ascending(s, min, max))
  }

  /** A parsed value list: non-empty, strictly ascending, within [min, max]. */
  predicate WellFormed(f: Field, min: int, max: int) {
    f.Values? ==>
      |f.vals| > 0 &&
      (forall i, j :: 0 <= i < j < |f.vals| ==> f.vals[i] < f.vals[j]) &&
      (forall i :: 0 <= i < |f.vals| ==> min <= f.vals[i] <= max)
  }
  /** A value text without '/', then '/' and an increment: the term splits at that '/'. */
  lemma SplitIncrementAt(value: string, inc: string)
    requires value != [] && '/' !in value
    ensures SplitIncrement(value + "/" + inc) == (value, Some(inc))
  {
    var term := value + "/" + inc;
    assert term[|value|] == '/';
    assert forall k :: 0 <= k < |value| ==> term[k] == value[k];
    assert term[..|value|] == value;
    assert term[|value| + 1..] == inc;
  }

  /** A single term is parsed on its own. */
  lemma ParseSingleTerm(term: string, min: int, max: int)
    requires min <= max && term != [] && ',' !in term
    ensures ParseTerm(term, min, max).Failure? ==> ParseSpec(term, min, max) == Failure(ParseTerm(term, min, max).error)
    ensures ParseTerm(term, min, max).Success? ==>
              ParseSpec(term, min, max) == Success(Ascending(ParseTerm(term, min, max).value, min, max))
  {
    SplitWhole(term, ',');
    assert [term][..0] == [];
    assert ParseTerms([], min, max) == Success({});
    var single := ParseTerm(term, min, max);
    if single.Success? {
      assert {} + single.value == single.value;
      assert ParseTerms([term], min, max) == single;
    } else {
      assert ParseTerms([term], min, max) == single;
    }
  }

  /** A decimal number alone, within the bounds, is that one value. */
  lemma ParseSingleValue(v: string, min: int, max: int)
    requires min <= max && IsDigits(v) && min <= DigitsValue(v) <= max
    ensures ParseSpec(v, min, max) == Success([DigitsValue(v)])
  {
    assert v[0] != '*';
    assert IndexOf(v, '/') == None && IndexOf(v, '-') == None;
    assert ParseTerm(v, min, max) == Success({DigitsValue(v)});
    ParseSingleTerm(v, min, max);
    AscendingUnique({DigitsValue(v)}, min, max, [DigitsValue(v)]);
  }

  /** v/inc: every inc-th value from v up to the field's maximum. */
  lemma ParseSteppedFrom(v: string, inc: string, min: int, max: int)
    requires min <= max && IsDigits(v) && IsDigits(inc)
    requires min <= DigitsValue(v) <= max && DigitsValue(inc) > 0
    ensures ParseSpec(v + "/" + inc, min, max) == Success(Progression(DigitsValue(v), max, DigitsValue(inc)))
  {
    var term := v + "/" + inc;
    assert forall k :: 0 <= k < |term| ==> term[k] == '/' || IsDigit(term[k]) by {
      forall k | 0 <= k < |term| ensures term[k] == '/' || IsDigit(term[k]) {
        if k < |v| {
          assert term[k] == v[k];
        } else if k > |v| {
          assert term[k] == inc[k - |v| - 1];
        }
      }
    }
    SplitIncrementAt(v, inc);
    assert v[0] != '*';
    assert IndexOf(v, '-') == None;
    assert inc != "0";
    assert ParseTerm(term, min, max) == Success(StepSet(DigitsValue(v), max, DigitsValue(inc)));
    ParseSingleTerm(term, min, max);
    AscendingStepSet(DigitsValue(v), max, DigitsValue(inc), min, max);
  }

  /** `*` with /inc, or /inc alone: every inc-th value from the field's minimum. */
  lemma ParseSteppedAll(inc: string, min: int, max: int)
    requires min <= max && IsDigits(inc) && DigitsValue(inc) > 0
    ensures ParseSpec("*" + "/" + inc, min, max) == Success(Progression(min, max, DigitsValue(inc)))
    ensures ParseSpec("/" + inc, min, max) == Success(Progression(min, max, DigitsValue(inc)))
  {
    var starred, bare := "*" + "/" + inc, "/" + inc;
    assert forall k :: 0 <= k < |starred| ==> starred[k] == '*' || starred[k] == '/' || IsDigit(starred[k]) by {
      forall k | 0 <= k < |starred| ensures starred[k] == '*' || starred[k] == '/' || IsDigit(starred[k]) {
        if k > 1 {
          assert starred[k] == inc[k - 2];
        }
      }
    }
    assert forall k :: 0 <= k < |bare| ==> bare[k] == '/' || IsDigit(bare[k]) by {
      forall k | 0 <= k < |bare| ensures bare[k] == '/' || IsDigit(bare[k]) {
        if k > 0 {
          assert bare[k] == inc[k - 1];
        }
      }
    }
    SplitIncrementAt("*", inc);
    assert IndexOf(bare, '/') == Some(0) && bare[1..] == inc;
    assert inc != "0";
    assert ParseTerm(starred, min, max) == Success(StepSet(min, max, DigitsValue(inc)));
    assert ParseTerm(bare, min, max) == Success(StepSet(min, max, DigitsValue(inc)));
    ParseSingleTerm(starred, min, max);
    ParseSingleTerm(bare, min, max);
    AscendingStepSet(min, max, DigitsValue(inc), min, max);
  }


  lemma {:induction false} ParseTermValues(term: string, min: int, max: int)
    requires min <= max
    requires ParseTerm(term, min, max).Success?
    ensures ParseTerm(term, min, max).value != {}
    ensures forall x :: x in ParseTerm(term, min, max).value ==> min <= x <= max
  {
    var (value, inc) := SplitIncrement(term);
    var star := inc.Some? && value == "*";
    var dash := IndexOf(value, '-');
    var s := ParseTerm(term, min, max).value;
    if star || (dash.Some? && dash.value != 0) {
      var lo := if star then min else NumericValue(value[..dash.value]);
      var hi := if star then max else NumericValue(value[dash.value + 1..]);
      var step := if inc.Some? && Truthy(inc.value) then NumericValue(inc.value) else 1;
      assert s == StepSet(lo, hi, step);
      forall x | x in s ensures min <= x <= max {
        StepSetMembers(lo, hi, step, x);
      }
    } else if inc.Some? && Truthy(inc.value) {
      var v := NumericValue(value);
      var step := NumericValue(inc.value);
      assert s == StepSet(v, max, step);
      forall x | x in s ensures min <= x <= max {
        StepSetMembers(v, max, step, x);
      }
    }
  }

  lemma {:induction false} ParseTermsValues(terms: seq<string>, min: int, max: int)
    requires min <= max
    requires ParseTerms(terms, min, max).Success?
    ensures terms != [] ==> ParseTerms(terms, min, max).value != {}
    ensures forall x :: x in ParseTerms(terms, min, max).value ==> min <= x <= max
    decreases |terms|
  {
    if terms != [] {
      ParseTermsValues(terms[..|terms| - 1], min, max);
      ParseTermValues(terms[|terms| - 1], min, max);
    }
  }

  /** Every parsed list is non-empty, ascending without duplicates and within [min, max]. */
  lemma ParseSpecWellFormed(text: string, min: int, max: int)
    requires min <= max
    requires ParseSpec(text, min, max).Success?
    ensures WellFormed(Values(ParseSpec(text, min, max).value), min, max)
  {
    var terms := Split(text, ',');
    ParseTermsValues(terms, min, max);
    var s := ParseTerms(terms, min, max).value;
    var vals := Ascending(s, min, max);
    assert ParseSpec(text, min, max).value == vals;
    var x :| x in s;
    assert x in vals;
    assert forall i :: 0 <= i < |vals| ==> vals[i] in s;
  }

  /** The first failing term decides the outcome of the whole list. */
  lemma {:induction false} ParseTermsFails(terms: seq<string>, k: int, min: int, max: int)
    requires min <= max && 0 <= k < |terms|
    requires ParseTerms(terms[..k], min, max).Success? && ParseTerm(terms[k], min, max).Failure?
    ensures ParseTerms(terms, min, max) == Failure(ParseTerm(terms[k], min, max).error)
    decreases |terms|
  {
    var init := terms[..|terms| - 1];
    if k < |terms| - 1 {
      assert init[..k] == terms[..k];
      ParseTermsFails(init, k, min, max);
    } else {
      assert init == terms[..k];
    }
  }

  /** The for loop of a range term: $values[i] = i for i = lo, lo + step, ... while i <= hi. */
  method AddRange(values: set<int>, lo: int, hi: int, step: int) returns (r: set<int>)
    requires step > 0
    ensures r == values + StepSet(lo, hi, step)
  {
    r := values;
    var i := lo;
    while i <= hi
      invariant r + StepSet(i, hi, step) == values + StepSet(lo, hi, step)
      decreases hi - i
    {
      r := r + {i};
      i := i + step;
    }
  }

  /** The do-while loop of a term `a/N`: $values[v] = v, v += step, while v <= max. */
  method AddStepping(values: set<int>, v: int, max: int, step: int) returns (r: set<int>)
    requires step > 0 && v <= max
    ensures r == values + StepSet(v, max, step)
  {
    var x := v;
    r := values + {x};
    x := x + step;
    while x <= max
      invariant r + StepSet(x, max, step) == values + StepSet(v, max, step)
      decreases max - x
    {
      r := r + {x};
      x := x + step;
    }
  }

  /** One pass of parseRunIntervalValue's foreach: add the values of one term, or throw. */
  method ParseTermInto(values: set<int>, term: string, min: int, max: int) returns (r: Result<set<int>, CronError>)
    requires min <= max
    ensures ParseTerm(term, min, max).Failure? ==> r == Failure(ParseTerm(term, min, max).error)
    ensures ParseTerm(term, min, max).Success? ==> r == Success(values + ParseTerm(term, min, max).value)
  {
    var value := term;
    var increment: Option<string> := None;
    var slash := IndexOf(value, '/');
    if slash.Some? {
      if slash.value != 0 {
        increment := Some(value[slash.value + 1..]);
        value := value[..slash.value];
      } else {
        increment := Some(value[1..]);
        value := "*";
      }
      if !IsNumeric(increment.value) {
        return Failure(InvalidIncrement);
      }
    }
    assert (value, increment) == SplitIncrement(term);
    var star := increment.Some? && value == "*";
    var dash := IndexOf(value, '-');
    if star || (dash.Some? && dash.value != 0) {
      var lo, hi := min, max;
      if !star {
        var a := ValidateRunIntervalValue(value[..dash.value], min, max);
        if a.Failure? {
          return Failure(a.error);
        }
        var b := ValidateRunIntervalValue(value[dash.value + 1..], min, max);
        if b.Failure? {
          return Failure(b.error);
        }
        lo, hi := a.value, b.value;
      }
      if lo > hi {
        return Failure(ReversedRange);
      }
      var step := 1;
      if increment.Some? && Truthy(increment.value) {
        step := NumericValue(increment.value);
      }
      if step <= 0 {
        return Failure(NonTerminating);
      }
      var expanded := AddRange(values, lo, hi, step);
      r := Success(expanded);
    } else {
      var v := ValidateRunIntervalValue(value, min, max);
      if v.Failure? {
        return Failure(v.error);
      }
      if increment.Some? && Truthy(increment.value) {
        var step := NumericValue(increment.value);
        if step <= 0 {
          return Failure(NonTerminating);
        }
        var expanded := AddStepping(values, v.value, max, step);
        r := Success(expanded);
      } else {
        r := Success(values + {v.value});
      }
    }
  }

  /** parseRunIntervalValue: expand every term into `values`, then sort. */
  method ParseRunIntervalValue(value: string, min: int, max: int) returns (r: Result<seq<int>, CronError>)
    requires min <= max
    ensures r == ParseSpec(value, min, max)
    ensures r.Success? ==> WellFormed(Values(r.value), min, max)
  {
    if value == "" {
      return Failure(EmptyValue);
    }
    var values: set<int> := {};
    var terms := Split(value, ',');
    var k := 0;
    while k < |terms|
      invariant 0 <= k <= |terms|
      invariant ParseTerms(terms[..k], min, max) == Success(values)
    {
      assert terms[..k + 1][..k] == terms[..k];
      var next := ParseTermInto(values, terms[k], min, max);
      if next.Failure? {
        ParseTermsFails(terms, k, min, max);
        return Failure(next.error);
      }
      values := next.value;
      k := k + 1;
    }
    assert terms[..|terms|] == terms;
    r := Success(Ascending(values, min, max));
    ParseSpecWellFormed(value, min, max);
  }

  // ---------------------------------------------------------------------------
  // The fields of a job.

  /** setRunIntervalMinute / Hour / Day / Month / Second: null or `*` is the wildcard. */
  function FieldOf(text: Option<string>, min: int, max: int): (r: Result<Field, CronError>)
    requires min <= max
    ensures r.Success? ==> WellFormed(r.value, min, max)
  {
    if text.None? || text.value == "*" then Success(Wildcard)
    else
      var parsed := ParseSpec(text.value, min, max);
      if parsed.Failure? then Failure(parsed.error)
      else
        ParseSpecWellFormed(text.value, min, max);
        Success(Values(parsed.value))
  }

  /** The body of setRunIntervalMinute and its siblings, calling the parser. */
  method SetRunIntervalField(text: Option<string>, min: int, max: int) returns (r: Result<Field, CronError>)
    requires min <= max
    ensures r == FieldOf(text, min, max)
    ensures r.Success? ==> WellFormed(r.value, min, max)
  {
    if text.None? || text.value == "*" {
      return Success(Wildcard);
    }
    var parsed := ParseRunIntervalValue(text.value, min, max);
    if parsed.Failure? {
      return Failure(parsed.error);
    }
    r := Success(Values(parsed.value));
  }

  /** The list without the value x (unset), the rest in its order. */
  function Without<T(==,!new)>(vals: seq<T>, x: T): (r: seq<T>)
    ensures forall y :: y in r <==> y in vals && y != x
    ensures x !in vals ==> r == vals
    ensures (forall i, j :: 0 <= i < j < |vals| ==> vals[i] != vals[j]) ==>
            (forall i, j :: 0 <= i < j < |r| ==> r[i] != r[j])
  {
    if vals == [] then []
    else if vals[0] == x then Without(vals[1..], x)
    else
      var rest := Without(vals[1..], x);
      assert (forall i, j :: 0 <= i < j < |vals| ==> vals[i] != vals[j]) ==> vals[0] !in vals[1..];
      [vals[0]] + rest
  }

  /** unset($dayOfWeek[7]); $dayOfWeek[0] = 0: Sunday written as 7 becomes 0 (appended when new). */
  function FoldSunday(vals: seq<int>): seq<int>
  {
    if 7 !in vals then vals
    else if 0 in vals then Without(vals, 7)
    else Without(vals, 7) + [0]
  }

  /** Folding keeps every weekday but 7, and turns 7 into 0. */
  lemma FoldSundayMembers(vals: seq<int>, d: int)
    ensures d in FoldSunday(vals) <==> (d in vals && d != 7) || (d == 0 && 7 in vals)
  {
  }

  /** A day-of-week list: non-empty, within [0, 6]; only membership is ever asked of it. */
  predicate WellFormedWeekdays(f: Field) {
    f.Values? ==>
      |f.vals| > 0 &&
      (forall i :: 0 <= i < |f.vals| ==> 0 <= f.vals[i] <= 6)
  }

  /** setRunIntervalDayOfWeek: parsed over 0-7 with 7 folded into 0. */
  function DayOfWeekOf(text: Option<string>): (r: Result<Field, CronError>)
  {
    match FieldOf(text, 0, 7)
    case Failure(e) => Failure(e)
    case Success(Wildcard) => Success(Wildcard)
    case Success(Values(vals)) => Success(Values(FoldSunday(vals)))
  }

  // ---------------------------------------------------------------------------
  // Lookups on a parsed field.

  /** The comparison getNextRunIntervalValue applies: >= when inclusive, > otherwise. */
  predicate Reaches(v: int, value: int, inclusive: bool) {
    if inclusive then v >= value else v > value
  }

  /** The first listed value that reaches `value`, in list order. */
  function FirstReaching(vals: seq<int>, value: int, inclusive: bool): (r: Option<int>)
    ensures r.None? <==> forall k :: 0 <= k < |vals| ==> !Reaches(vals[k], value, inclusive)
    ensures r.Some? ==> exists k :: 0 <= k < |vals| && vals[k] == r.value && Reaches(r.value, value, inclusive) &&
                                    forall j :: 0 <= j < k ==> !Reaches(vals[j], value, inclusive)
  {
    if vals == [] then None
    else if Reaches(vals[0], value, inclusive) then Some(vals[0])
    else
      var r := FirstReaching(vals[1..], value, inclusive);
      if r.Some? then
        var k :| 0 <= k < |vals[1..]| && vals[1..][k] == r.value && Reaches(r.value, value, inclusive) &&
                 forall j :: 0 <= j < k ==> !Reaches(vals[1..][j], value, inclusive);
        assert vals[k + 1] == r.value;
        r
      else r
  }

  /** getNextRunIntervalValue: the default for `*`, else the next listed value, wrapping to the first. */
  function GetNextRunIntervalValue(values: Field, value: int, default: Option<int>, inclusive: bool): (r: Option<int>)
    ensures values.Wildcard? ==> r == default
    ensures values.Values? && |values.vals| > 0 ==> r.Some? && r.value in values.vals
  {
    match values
    case Wildcard => default
    case Values(vals) =>
      var next := FirstReaching(vals, value, inclusive);
      if next.Some? then next
      else if |vals| > 0 then Some(vals[0])
      else None
  }

  /** getFirstRunIntervalValue: the default for `*`, else the first listed value. */
  function GetFirstRunIntervalValue(values: Field, default: int): (r: Option<int>)
    ensures values.Wildcard? ==> r == Some(default)
    ensures values.Values? && |values.vals| > 0 ==> r == Some(values.vals[0])
  {
    match values
    case Wildcard => Some(default)
    case Values(vals) => if |vals| > 0 then Some(vals[0]) else None
  }

  /**
   * On a parsed list the next value is the least member reaching `value`, or
   * the least member overall when none does.
   */
  lemma NextRunIntervalValueIsLeast(vals: seq<int>, min: int, max: int, value: int, inclusive: bool)
    requires WellFormed(Values(vals), min, max)
    ensures GetNextRunIntervalValue(Values(vals), value, None, inclusive).Some?
    ensures var v := GetNextRunIntervalValue(Values(vals), value, None, inclusive).value;
      v in vals &&
      ((exists k :: 0 <= k < |vals| && Reaches(vals[k], value, inclusive)) ==>
         Reaches(v, value, inclusive) &&
         forall k :: 0 <= k < |vals| && Reaches(vals[k], value, inclusive) ==> v <= vals[k]) &&
      ((forall k :: 0 <= k < |vals| ==> !Reaches(vals[k], value, inclusive)) ==>
         forall k :: 0 <= k < |vals| ==> v <= vals[k])
  {
    var next := FirstReaching(vals, value, inclusive);
    if next.Some? {
      var k :| 0 <= k < |vals| && vals[k] == next.value && Reaches(next.value, value, inclusive) &&
               forall j :: 0 <= j < k ==> !Reaches(vals[j], value, inclusive);
      forall j | 0 <= j < |vals| && Reaches(vals[j], value, inclusive) ensures next.value <= vals[j] {
      }
    } else {
      forall j | 0 <= j < |vals| ensures vals[0] <= vals[j] {
        if 0 < j {
          assert vals[0] < vals[j];
        }
      }
    }
  }

  /** setRunIntervalDayOfWeek, calling the parser and folding 7 into 0. */
  method SetRunIntervalDayOfWeek(text: Option<string>) returns (r: Result<Field, CronError>)
    ensures r == DayOfWeekOf(text)
  {
    r := SetRunIntervalField(text, 0, 7);
    if r.Success? && r.value.Values? {
      r := Success(Values(FoldSunday(r.value.vals)));
    }
  }
}
