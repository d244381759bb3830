// Which employee a device PIN stands for: four strategies in turn.

module PinCascade {
  import opened Common
  import opened Text

  // A non-deleted employee of the organisation.
  datatype Person = Person(id: nat, code: string, uid: Option<string>, active: bool)

  datatype Strategy = ExactCode | BiometricId | NumericSuffix | PrimaryKey

  type Found = Option<(Person, Strategy)>

  predicate AllDigits(s: string) {
    forall i :: 0 <= i < |s| ==> IsDigit(s[i])
  }

  // regexp_replace(code, '\D', '', 'g')
  function Digits(s: string): (d: string)
    ensures AllDigits(d)
  {
    if s == "" then "" else Digits(s[..|s| - 1]) + (if IsDigit(s[|s| - 1]) then [s[|s| - 1]] else "")
  }

  function Value(s: string): nat
    requires AllDigits(s)
  {
    if s == "" then 0 else 10 * Value(s[..|s| - 1]) + (s[|s| - 1] - '0') as nat
  }

  predicate Matches(s: Strategy, pin: string, p: Person) {
    match s
    case ExactCode => p.code == pin
    case BiometricId => p.uid == Some(pin)
    case NumericSuffix => AllDigits(pin) && Digits(p.code) != "" && Value(Digits(p.code)) == Value(pin)
    case PrimaryKey => AllDigits(pin) && p.id == Value(pin)
  }

  // ORDER BY employee_id, the numeric strategies with active employees first.
  predicate Before(s: Strategy, p: Person, q: Person) {
    if (s.NumericSuffix? || s.PrimaryKey?) && p.active != q.active then p.active else p.id < q.id
  }

  predicate Earlier(s: Strategy, t: Strategy) {
    match t
    case ExactCode => false
    case BiometricId => s.ExactCode?
    case NumericSuffix => s.ExactCode? || s.BiometricId?
    case PrimaryKey => !s.PrimaryKey?
  }

  // One query: the first matching row in its order.
  function Query(rows: seq<Person>, s: Strategy, pin: string): Option<Person> {
    if rows == [] then None
    else
      var best, p := Query(rows[..|rows| - 1], s, pin), rows[|rows| - 1];
      if Matches(s, pin, p) && (best.None? || Before(s, p, best.value)) then Some(p) else best
  }

  ghost predicate FirstMatch(rows: seq<Person>, s: Strategy, pin: string, p: Person) {
    p in rows && Matches(s, pin, p) && forall q :: q in rows && Matches(s, pin, q) ==> !Before(s, q, p)
  }

  lemma {:induction false} QueryExact(rows: seq<Person>, s: Strategy, pin: string)
    ensures match Query(rows, s, pin)
            case None => forall q :: q in rows ==> !Matches(s, pin, q)
            case Some(p) => FirstMatch(rows, s, pin, p)
  {
    if rows != [] {
      QueryExact(rows[..|rows| - 1], s, pin);
      assert rows == rows[..|rows| - 1] + [rows[|rows| - 1]];
    }
  }

  // The answer of the cascade, without its steps: a first match of the earliest
  // strategy that matches any row; nothing when none does or the PIN is blank.
  ghost predicate Answers(rows: seq<Person>, pin: string, r: Found) {
    match r
    case None => Strip(pin) == "" || forall s, q :: q in rows ==> !Matches(s, Strip(pin), q)
    case Some((p, s)) =>
      && Strip(pin) != "" && FirstMatch(rows, s, Strip(pin), p)
      && forall t, q :: Earlier(t, s) && q in rows ==> !Matches(t, Strip(pin), q)
  }

  // resolve_employee_for_adms_pin
  method ResolveEmployee(rows: seq<Person>, pin: string) returns (r: Found)
    ensures Answers(rows, pin, r)
  {
    var clean := Strip(pin);
    if clean == "" {
      return None;
    }
    QueryExact(rows, ExactCode, clean);
    var hit := Query(rows, ExactCode, clean);
    if hit.Some? {
      return Some((hit.value, ExactCode));
    }
    QueryExact(rows, BiometricId, clean);
    hit := Query(rows, BiometricId, clean);
    if hit.Some? {
      return Some((hit.value, BiometricId));
    }
    if AllDigits(clean) {
      QueryExact(rows, NumericSuffix, clean);
      hit := Query(rows, NumericSuffix, clean);
      if hit.Some? {
        return Some((hit.value, NumericSuffix));
      }
      QueryExact(rows, PrimaryKey, clean);
      hit := Query(rows, PrimaryKey, clean);
      if hit.Some? {
        return Some((hit.value, PrimaryKey));
      }
    }
    return None;
  }

  // Employee ids are a primary key.
  ghost predicate DistinctIds(rows: seq<Person>) {
    forall p, q :: p in rows && q in rows && p.id == q.id ==> p == q
  }

  // The answer does not depend on the order, or repetition, in which the table
  // yields its rows.
  lemma AnswerIsUnique(rows: seq<Person>, others: seq<Person>, pin: string, r: Found, t: Found)
    requires DistinctIds(rows) && (forall p :: p in rows <==> p in others)
    requires Answers(rows, pin, r) && Answers(others, pin, t)
    ensures r == t
  {
    if r.Some? && t.Some? {
      var (p, s) := r.value;
      var (q, u) := t.value;
      assert Matches(s, Strip(pin), p) && Matches(u, Strip(pin), q);
      assert s == u || Earlier(s, u) || Earlier(u, s);
      assert s == u;
      assert !Before(s, q, p) && !Before(s, p, q);
    }
  }

  lemma {:induction false} LeadingZero(s: string)
    requires AllDigits(s)
    ensures AllDigits("0" + s) && Value("0" + s) == Value(s)
  {
    var z := "0" + s;
    if s == "" {
      assert z[..0] == "" && Value(z[..0]) == 0;
    } else {
      LeadingZero(s[..|s| - 1]);
      assert z[..|z| - 1] == "0" + s[..|s| - 1];
    }
  }

  // The numeric strategies cannot tell a PIN from the same PIN padded with zeros.
  lemma PaddingIsIgnored(s: Strategy, pin: string, p: Person)
    requires s.NumericSuffix? || s.PrimaryKey?
    ensures pin != "" ==> (Matches(s, "0" + pin, p) <==> Matches(s, pin, p))
  {
    if AllDigits(pin) {
      LeadingZero(pin);
    } else {
      var i :| 0 <= i < |pin| && !IsDigit(pin[i]);
      assert ("0" + pin)[i + 1] == pin[i];
    }
  }

  // --- Who wins ---

  ghost predicate Least(rows: seq<Person>, p: Person, wins: Person -> bool) {
    p in rows && wins(p) && forall q :: q in rows && wins(q) ==> p.id <= q.id
  }

  // The employee code beats the biometric id: a PIN that is someone's code answers
  // them, whoever else has it as their id; without a code it answers the bearer of
  // the id. Among several the lowest employee id answers.
  lemma CodeBeatsBiometricId(rows: seq<Person>, pin: string, r: Found)
    requires Answers(rows, pin, r) && Strip(pin) != ""
    ensures (exists q :: q in rows && q.code == Strip(pin)) ==>
              r.Some? && r.value.1 == ExactCode && Least(rows, r.value.0, (q: Person) => q.code == Strip(pin))
    ensures (forall q :: q in rows ==> q.code != Strip(pin)) && (exists q :: q in rows && q.uid == Some(Strip(pin))) ==>
              r.Some? && r.value.1 == BiometricId && Least(rows, r.value.0, (q: Person) => q.uid == Some(Strip(pin)))
  {
    if q :| q in rows && q.code == Strip(pin) {
      assert Matches(ExactCode, Strip(pin), q);
      assert r.Some? && !Earlier(ExactCode, r.value.1);
    } else if q :| q in rows && q.uid == Some(Strip(pin)) {
      assert Matches(BiometricId, Strip(pin), q);
      assert r.Some? && !Earlier(BiometricId, r.value.1);
      assert Matches(r.value.1, Strip(pin), r.value.0);
    }
    if r.Some? {
      forall q | q in rows && Matches(r.value.1, Strip(pin), q)
        ensures r.value.1.ExactCode? || r.value.1.BiometricId? ==> r.value.0.id <= q.id
      {
        assert !Before(r.value.1, q, r.value.0);
      }
    }
  }

  // The digits of a code as a number, leading zeros dropped.
  function Significant(digits: string): string {
    if digits != "" && digits[0] == '0' then Significant(digits[1..]) else digits
  }

  // A numeric PIN that is nobody's code and nobody's biometric id answers an employee
  // whose code has the same digits up to leading zeros, or else the employee with that
  // id; an active one if there is any, and the lowest id among those.
  lemma NumericAnswers(rows: seq<Person>, pin: string, r: Found)
    requires Answers(rows, pin, r) && Strip(pin) != "" && AllDigits(Strip(pin))
    requires forall q :: q in rows ==> q.code != Strip(pin) && q.uid != Some(Strip(pin))
    ensures var bySuffix := (q: Person) => Digits(q.code) != "" && Significant(Digits(q.code)) == Significant(Strip(pin));
            && ((exists q :: q in rows && bySuffix(q)) ==> r.Some? && r.value.1 == NumericSuffix && ActiveFirst(rows, r.value.0, bySuffix))
            && ((forall q :: q in rows ==> !bySuffix(q)) && r.Some? ==> r.value.1 == PrimaryKey && r.value.0.id == Value(Strip(pin)))
  {
    var clean := Strip(pin);
    forall q: Person
      ensures Matches(NumericSuffix, clean, q) <==> Digits(q.code) != "" && Significant(Digits(q.code)) == Significant(clean)
    {
      SameValue(Digits(q.code), clean);
    }
    if q :| q in rows && Digits(q.code) != "" && Significant(Digits(q.code)) == Significant(clean) {
      assert Matches(NumericSuffix, clean, q);
      assert r.Some? && !Earlier(NumericSuffix, r.value.1);
      assert Matches(r.value.1, clean, r.value.0);
      assert r.value.1.NumericSuffix?;
      forall t | t in rows && Matches(NumericSuffix, clean, t)
        ensures !Before(NumericSuffix, t, r.value.0)
      {
      }
    } else if r.Some? {
      assert Matches(r.value.1, clean, r.value.0);
    }
  }

  // A bearer with the lowest id among the active ones, or among all if none is active.
  ghost predicate ActiveFirst(rows: seq<Person>, p: Person, wins: Person -> bool) {
    && p in rows && wins(p)
    && (forall q :: q in rows && wins(q) && q.active ==> p.active && p.id <= q.id)
    && (!p.active ==> forall q :: q in rows && wins(q) ==> p.id <= q.id)
  }

  // Only the digits of a code count, in their order: letters and dashes drop out.
  lemma {:induction false} DigitsOfParts(a: string, b: string)
    ensures Digits(a + b) == Digits(a) + Digits(b)
  {
    if b == "" {
      assert a + b == a;
    } else {
      DigitsOfParts(a, b[..|b| - 1]);
      assert (a + b)[..|a + b| - 1] == a + b[..|b| - 1];
    }
  }

  lemma {:induction false} DigitsKeptOrDropped(s: string)
    ensures AllDigits(s) ==> Digits(s) == s
    ensures (forall i :: 0 <= i < |s| ==> !IsDigit(s[i])) ==> Digits(s) == ""
  {
    if s != "" {
      DigitsKeptOrDropped(s[..|s| - 1]);
      assert s == s[..|s| - 1] + [s[|s| - 1]];
    }
  }

  // Two digit strings have one value exactly when they agree up to leading zeros.
  lemma SameValue(a: string, b: string)
    requires AllDigits(a) && AllDigits(b)
    ensures Value(a) == Value(b) <==> Significant(a) == Significant(b)
  {
    DropZeros(a);
    DropZeros(b);
    if Value(a) == Value(b) {
      ValueInjective(Significant(a), Significant(b));
    }
  }

  lemma {:induction false} DropZeros(s: string)
    requires AllDigits(s)
    ensures AllDigits(Significant(s)) && Value(Significant(s)) == Value(s)
    ensures Significant(s) != "" ==> Significant(s)[0] != '0'
  {
    if s != "" && s[0] == '0' {
      LeadingZero(s[1..]);
      assert "0" + s[1..] == s;
      DropZeros(s[1..]);
    }
  }

  lemma {:induction false} ValueInjective(a: string, b: string)
    requires AllDigits(a) && AllDigits(b) && Value(a) == Value(b)
    requires (a != "" ==> a[0] != '0') && (b != "" ==> b[0] != '0')
    ensures a == b
  {
    if a == "" || b == "" {
      PositiveValue(a);
      PositiveValue(b);
    } else {
      var m, n := |a| - 1, |b| - 1;
      var c, d := (a[m] - '0') as nat, (b[n] - '0') as nat;
      assert 10 * Value(a[..m]) + c == 10 * Value(b[..n]) + d && c < 10 && d < 10;
      assert Value(a[..m]) == Value(b[..n]) && c == d;
      ValueInjective(a[..m], b[..n]);
      assert a == a[..m] + [a[m]] && b == b[..n] + [b[n]];
    }
  }

  lemma {:induction false} PositiveValue(s: string)
    requires AllDigits(s) && (s != "" ==> s[0] != '0')
    ensures s != "" ==> Value(s) > 0
  {
    if |s| > 1 {
      PositiveValue(s[..|s| - 1]);
    }
  }
}
