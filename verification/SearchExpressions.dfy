/**
 The search expression that a filtered column compiles to, evaluated over rows, and
 what the filter is meant to keep.
 */
module SearchExpressions {
  import opened FrameworkConstants
  import opened Wrappers
  import opened Json
  import opened FilterComponents

  datatype Cell = CNull | CBool(b: bool) | CText(s: string) | CNumber(x: real) | CTime(t: int)

  // A field that a row does not have reads as null.
  type Row = map<string, Cell>

  datatype Comparison = EQ | NE | GT | GE | LT | LE

  datatype Expr =
    | EqBool(field: string, b: bool)
    | EqText(field: string, s: string)
    | EqLong(field: string, n: Long)
    | Compare(field: string, comparison: Comparison, number: string)
    | Like(field: string, pattern: string)
    | In(field: string, items: seq<string>)
    | Between(field: string, low: int, high: int)
    | IsNull(field: string)
    | And(left: Expr, right: Expr)
    | Or(left: Expr, right: Expr)

  // The database reads the text of a number when it compares it with a number.
  type NumberOf = string -> real

  function CellOf(row: Row, field: string): Cell {
    if field in row then row[field] else CNull
  }

  predicate Compares(x: real, comparison: Comparison, y: real) {
    match comparison
    case EQ => x == y
    case NE => x != y
    case GT => x > y
    case GE => x >= y
    case LT => x < y
    case LE => x <= y
  }

  predicate IsListed(num: NumberOf, cell: Cell, items: seq<string>) {
    || (cell.CText? && cell.s in items)
    || (cell.CNumber? && exists i :: 0 <= i < |items| && num(items[i]) == cell.x)
  }

  // A row is kept when its expression is true; an unknown, from a null, is not.
  predicate Eval(num: NumberOf, row: Row, e: Expr) {
    match e
    case EqBool(f, b) => CellOf(row, f) == CBool(b)
    case EqText(f, s) => CellOf(row, f) == CText(s)
    case EqLong(f, n) => CellOf(row, f) == CNumber(n as real)
    case Compare(f, c, number) => CellOf(row, f).CNumber? && Compares(CellOf(row, f).x, c, num(number))
    case Like(f, p) => CellOf(row, f).CText? && LikeMatches(p, CellOf(row, f).s)
    case In(f, items) => IsListed(num, CellOf(row, f), items)
    case Between(f, low, high) => CellOf(row, f).CTime? && low <= CellOf(row, f).t <= high
    case IsNull(f) => CellOf(row, f).CNull?
    case And(l, r) => Eval(num, row, l) && Eval(num, row, r)
    case Or(l, r) => Eval(num, row, l) || Eval(num, row, r)
  }

  // SQL LIKE: % is any text, _ is any character, a backslash takes the next character as it is.
  predicate LikeMatches(p: string, s: string)
    decreases |p| + |s|
  {
    if p == "" then s == ""
    else if p[0] == '%' then LikeMatches(p[1..], s) || (s != "" && LikeMatches(p, s[1..]))
    else if p[0] == '_' then s != "" && LikeMatches(p[1..], s[1..])
    else if p[0] == '\\' && |p| > 1 then s != "" && s[0] == p[1] && LikeMatches(p[2..], s[1..])
    else s != "" && s[0] == p[0] && LikeMatches(p[1..], s[1..])
  }

  // ---------- What the filters mean ----------

  const JOKER := '*'

  // A star stands for any text, every other character for itself.
  ghost predicate GlobMatches(p: string, s: string) {
    if p == "" then s == ""
    else if p[0] == JOKER then exists k :: 0 <= k <= |s| && GlobMatches(p[1..], s[k..])
    else s != "" && s[0] == p[0] && GlobMatches(p[1..], s[1..])
  }

  const LAST_SECOND := 86_399_000

  function DayStart(t: int): (r: int)
    ensures r % DAY == 0 && r <= t < r + DAY
  {
    t - t % DAY
  }

  function ComparisonOf(comparator: string): Option<Comparison> {
    if comparator == "=" then Some(EQ)
    else if comparator == ">" then Some(GT)
    else if comparator == ">=" then Some(GE)
    else if comparator == "<" then Some(LT)
    else if comparator == "<=" then Some(LE)
    else if comparator == "<>" then Some(NE)
    else None
  }

  predicate HasNoNull(v: Value) {
    match v
    case VNumeric(value, comparator) => value.Some? && comparator.Some?
    case VDates(from, to) => from.Some? && to.Some?
    case _ => true
  }

  // A filter value that is null filters nothing; any other must be of the component's
  // kind and without null parts, unless the component leaves filtering to others.
  predicate Castable(c: Component, v: Value) {
    || c.NoFilter? || c.NoDb? || c.PostQuery? || v.VNull?
    || (WellTyped(c, v) && HasNoNull(v))
  }

  // A choice without an id is one with the id zero: nothing is chosen.
  function IdOf(v: Value): Long
    requires v.VChoice?
  {
    if v.id.Some? then v.id.value else 0
  }

  ghost predicate MeantNumber(cell: Cell, comparator: string, y: real) {
    && (comparator == "=" ==> cell == CNumber(y))
    && (comparator == "<>" ==> cell.CNumber? && cell.x != y)
    && (comparator == ">" ==> cell.CNumber? && cell.x > y)
    && (comparator == ">=" ==> cell.CNumber? && cell.x >= y)
    && (comparator == "<" ==> cell.CNumber? && cell.x < y)
    && (comparator == "<=" ==> cell.CNumber? && cell.x <= y)
  }

  // What a user who sets this filter value wants to see.
  ghost predicate Meant(num: NumberOf, c: Component, v: Value, cell: Cell)
    requires Castable(c, v)
  {
    if v.VNull? then true
    else
      match c
      case Checkbox(_) => cell == CBool(v.b)
      case TextField(_) =>
        if JOKER in v.s then cell.CText? && GlobMatches(v.s, cell.s)
        else cell == CText(v.s) || (v.s == "" && cell.CNull?)
      case NumericField(_, _) => MeantNumber(cell, v.comparator.value, num(v.value.value))
      case DateRange(_, _) => cell.CTime? && v.from.value <= cell.t <= DayStart(v.to.value) + LAST_SECOND
      case Select(_, _) =>
        if v.items == [] then cell.CNull?
        else exists item :: item in v.items && (cell == CText(item) || cell == CNumber(num(item)))
      case Autocomplete(_) => if v.id in {None, Some(0)} then cell.CNull? else cell == CNumber(v.id.value as real)
      case _ => true
  }

  // ---------- What the filters compile to ----------

  function Wildcard(c: char): char {
    if c == JOKER then '%' else c
  }

  // Every * becomes a %.
  function StarsToPercent(s: string): (r: string)
    ensures |r| == |s|
  {
    if s == "" then "" else [Wildcard(s[0])] + StarsToPercent(s[1..])
  }

  // The calendar's 12-hour field is set to 23, then minutes and seconds to 59: after
  // noon that is 35 hours into the day. Milliseconds stay.
  function EndBound(to: int): int {
    DayStart(to) + (if to % DAY < 12 * HOUR then 23 * HOUR else 35 * HOUR) + 59 * 60_000 + 59_000 + to % 1000
  }

  function Compile(c: Component, v: Value, field: string): Option<Expr>
    requires Castable(c, v)
  {
    if v.VNull? then None
    else
      match c
      case Checkbox(_) => Some(EqBool(field, v.b))
      case TextField(_) =>
        if JOKER in v.s then Some(Like(field, StarsToPercent(v.s)))
        else if v.s == "" then Some(Or(EqText(field, v.s), IsNull(field)))
        else Some(EqText(field, v.s))
      case NumericField(_, _) =>
        (match ComparisonOf(v.comparator.value)
         case Some(comparison) => Some(Compare(field, comparison, v.value.value))
         case None => None)
      case DateRange(_, _) => Some(Between(field, v.from.value, EndBound(v.to.value)))
      case Select(_, _) => if |v.items| > 0 then Some(In(field, v.items)) else Some(IsNull(field))
      case Autocomplete(_) => if IdOf(v) != 0 then Some(EqLong(field, IdOf(v))) else Some(IsNull(field))
      case _ => None
  }

  predicate Keeps(num: NumberOf, row: Row, e: Option<Expr>) {
    e.Some? ==> Eval(num, row, e.value)
  }

  // ---------- Globs and LIKE patterns ----------

  // No character means anything special to LIKE; a backslash at the very end does not.
  predicate Plain(p: string) {
    '%' !in p && '_' !in p && (p != "" ==> '\\' !in p[..|p| - 1])
  }

  lemma PlainRest(p: string)
    requires p != ""
    ensures Plain(p) <==> p[0] != '%' && p[0] != '_' && (|p| > 1 ==> p[0] != '\\') && Plain(p[1..])
  {
    assert p == [p[0]] + p[1..];
    if |p| > 1 {
      assert p[..|p| - 1] == [p[0]] + p[1..][..|p| - 2];
    }
  }

  lemma {:induction false} PercentMatches(p: string, s: string, k: nat)
    requires p != "" && p[0] == '%' && k <= |s|
    ensures LikeMatches(p[1..], s[k..]) ==> LikeMatches(p, s)
    decreases k
  {
    if k != 0 {
      assert s[1..][k - 1..] == s[k..];
      PercentMatches(p, s[1..], k - 1);
    } else {
      assert s[0..] == s;
    }
  }

  lemma {:induction false} PercentWitness(p: string, s: string) returns (k: nat)
    requires p != "" && p[0] == '%' && LikeMatches(p, s)
    ensures k <= |s| && LikeMatches(p[1..], s[k..])
    decreases |s|
  {
    if LikeMatches(p[1..], s) {
      k := 0;
      assert s[0..] == s;
    } else {
      var j := PercentWitness(p, s[1..]);
      assert s[1..][j..] == s[j + 1..];
      k := j + 1;
    }
  }

  // On plain values the LIKE pattern matches exactly the texts that the glob matches.
  lemma {:induction false} LikeIsGlob(p: string, s: string)
    requires Plain(p)
    ensures LikeMatches(StarsToPercent(p), s) <==> GlobMatches(p, s)
    decreases |p|
  {
    if p != "" {
      var q := StarsToPercent(p);
      assert q[1..] == StarsToPercent(p[1..]);
      PlainRest(p);
      if p[0] == JOKER {
        forall k | 0 <= k <= |s|
          ensures LikeMatches(q[1..], s[k..]) <==> GlobMatches(p[1..], s[k..])
        {
          LikeIsGlob(p[1..], s[k..]);
        }
        if LikeMatches(q, s) {
          var k := PercentWitness(q, s);
        }
        if GlobMatches(p, s) {
          var k :| 0 <= k <= |s| && GlobMatches(p[1..], s[k..]);
          PercentMatches(q, s, k);
        }
      } else if s != "" {
        LikeIsGlob(p[1..], s[1..]);
      }
    }
  }

  // The literal part of a glob, and the shortest text that its LIKE pattern matches
  // when an underscore is filled with another character.
  function Literals(p: string): string {
    if p == "" then "" else (if p[0] == JOKER then "" else [p[0]]) + Literals(p[1..])
  }

  function Shortest(p: string): string {
    if p == "" then ""
    else if p[0] == JOKER || p[0] == '%' then Shortest(p[1..])
    else if p[0] == '\\' && |p| > 1 then [Wildcard(p[1])] + Shortest(p[2..])
    else [if p[0] == '_' then 'x' else p[0]] + Shortest(p[1..])
  }

  lemma {:induction false} GlobNeedsItsLiterals(p: string, s: string)
    requires GlobMatches(p, s)
    ensures |s| >= |Literals(p)|
    ensures |s| == |Literals(p)| ==> s == Literals(p)
  {
    if p != "" {
      if p[0] == JOKER {
        var k :| 0 <= k <= |s| && GlobMatches(p[1..], s[k..]);
        GlobNeedsItsLiterals(p[1..], s[k..]);
        assert s[0..] == s;
      } else {
        GlobNeedsItsLiterals(p[1..], s[1..]);
        assert s == [s[0]] + s[1..];
      }
    }
  }

  lemma {:induction false} LikeMatchesShortest(p: string)
    ensures LikeMatches(StarsToPercent(p), Shortest(p))
  {
    if p != "" {
      var q := StarsToPercent(p);
      assert q[1..] == StarsToPercent(p[1..]);
      if p[0] == '\\' && |p| > 1 {
        LikeMatchesShortest(p[2..]);
        assert q[2..] == StarsToPercent(p[2..]) && q[1] == Wildcard(p[1]);
        assert Shortest(p)[1..] == Shortest(p[2..]);
      } else {
        LikeMatchesShortest(p[1..]);
        if q[0] != '%' {
          assert Shortest(p)[1..] == Shortest(p[1..]);
        }
      }
    }
  }

  // A backslash takes a literal away or turns a star into a percent sign.
  lemma BackslashDiffers(p: string)
    requires |p| > 1 && p[0] == '\\' && |Shortest(p[2..])| <= |Literals(p[2..])|
    ensures |Shortest(p)| <= |Literals(p)| && Shortest(p) != Literals(p)
  {
    var rest := p[1..];
    assert rest[0] == p[1] && rest[1..] == p[2..];
    assert |Literals(rest)| == |Literals(p[2..])| + if p[1] == JOKER then 0 else 1;
    assert Literals(p)[0] == '\\' && |Literals(p)| == 1 + |Literals(rest)|;
    assert Shortest(p)[0] == Wildcard(p[1]) && |Shortest(p)| == 1 + |Shortest(p[2..])|;
  }

  lemma {:induction false} ShortestDiffers(p: string)
    ensures |Shortest(p)| <= |Literals(p)|
    ensures !Plain(p) ==> Shortest(p) != Literals(p)
  {
    if p != "" {
      PlainRest(p);
      var rest := Literals(p[1..]);
      if p[0] == JOKER || p[0] == '%' {
        ShortestDiffers(p[1..]);
        assert p[0] == JOKER ==> Literals(p) == rest;
      } else if p[0] == '\\' && |p| > 1 {
        ShortestDiffers(p[2..]);
        BackslashDiffers(p);
      } else {
        ShortestDiffers(p[1..]);
        assert Shortest(p)[1..] == Shortest(p[1..]) && Literals(p)[1..] == rest;
      }
    }
  }

  // The compiled pattern means the glob for every text if and only if the value is plain.
  lemma GlobFaithfulIff(p: string)
    ensures (forall s :: LikeMatches(StarsToPercent(p), s) <==> GlobMatches(p, s)) <==> Plain(p)
  {
    if Plain(p) {
      forall s
        ensures LikeMatches(StarsToPercent(p), s) <==> GlobMatches(p, s)
      {
        LikeIsGlob(p, s);
      }
    } else {
      LikeMatchesShortest(p);
      ShortestDiffers(p);
      if GlobMatches(p, Shortest(p)) {
        GlobNeedsItsLiterals(p, Shortest(p));
      }
      assert LikeMatches(StarsToPercent(p), Shortest(p)) && !GlobMatches(p, Shortest(p));
    }
  }

  // ---------- Dates ----------

  // The upper bound is the last second of the day if and only if the instant lies
  // before noon on a whole second; after noon the bound is near noon of the next day.
  lemma DateBoundIff(to: int)
    ensures EndBound(to) == DayStart(to) + LAST_SECOND <==> to % DAY < 12 * HOUR && to % 1000 == 0
    ensures to % DAY >= 12 * HOUR ==> EndBound(to) >= DayStart(to) + DAY + 11 * HOUR
    ensures EndBound(to) >= DayStart(to) + LAST_SECOND
  {
  }

  // ---------- One column ----------

  // A text with a star must be plain, and a date range must end before noon on a whole
  // second or be empty. A wrapped component filters nothing here.
  predicate Faithful(c: Component, v: Value)
    requires Castable(c, v)
  {
    match c
    case TextField(_) => v.VNull? || (JOKER in v.s ==> Plain(v.s))
    case DateRange(_, _) =>
      || v.VNull? || v.from.value > EndBound(v.to.value)
      || (v.to.value % DAY < 12 * HOUR && v.to.value % 1000 == 0)
    case _ => true
  }

  lemma KeptNumber(num: NumberOf, v: Value, field: string, row: Row)
    requires v.VNumeric? && HasNoNull(v)
    ensures var e := match ComparisonOf(v.comparator.value)
                     case Some(comparison) => Some(Compare(field, comparison, v.value.value))
                     case None => None;
            Keeps(num, row, e) <==> MeantNumber(CellOf(row, field), v.comparator.value, num(v.value.value))
  {
  }

  // A numeric column as a query sees it.
  ghost predicate KeepsNumber(num: NumberOf, comparator: string, value: string, x: real) {
    var c := NumericField(None, None);
    Keeps(num, map["n" := CNumber(x)], Compile(c, VNumeric(Some(value), Some(comparator)), "n"))
  }

  // The three strict comparators divide the numbers into three intervals, the others are
  // put together from them, and a text that is no comparator keeps everything.
  lemma ComparatorsDivide(num: NumberOf, value: string, x: real, y: real)
    ensures KeepsNumber(num, "=", value, x) <==> x == num(value)
    ensures KeepsNumber(num, "<", value, x) && KeepsNumber(num, ">", value, y) ==> x < num(value) < y
    ensures KeepsNumber(num, "<", value, x) || KeepsNumber(num, "=", value, x) || KeepsNumber(num, ">", value, x)
    ensures KeepsNumber(num, "<=", value, x) <==> KeepsNumber(num, "<", value, x) || KeepsNumber(num, "=", value, x)
    ensures KeepsNumber(num, ">=", value, x) <==> KeepsNumber(num, ">", value, x) || KeepsNumber(num, "=", value, x)
    ensures KeepsNumber(num, "<>", value, x) <==> !KeepsNumber(num, "=", value, x)
    ensures forall comparator :: comparator !in {"=", "<", ">", "<=", ">=", "<>"} ==>
              KeepsNumber(num, comparator, value, x)
  {
  }

  // A column's expression keeps exactly the rows that the filter means to keep.
  lemma CompiledMeansMeant(num: NumberOf, c: Component, v: Value, field: string, row: Row)
    requires Castable(c, v) && Faithful(c, v)
    ensures Keeps(num, row, Compile(c, v, field)) <==> Meant(num, c, v, CellOf(row, field))
  {
    if !v.VNull? {
      match c
      case TextField(_) =>
        if JOKER in v.s && CellOf(row, field).CText? {
          LikeIsGlob(v.s, CellOf(row, field).s);
        }
        assert Eval(num, row, EqText(field, v.s)) <==> CellOf(row, field) == CText(v.s);
        assert Eval(num, row, IsNull(field)) <==> CellOf(row, field).CNull?;
      case NumericField(_, _) => KeptNumber(num, v, field, row);
      case DateRange(_, _) => DateBoundIff(v.to.value);
      case _ =>
    }
  }

  // And on all rows only then: every unfaithful value has a row that shows it.
  lemma FaithfulIff(num: NumberOf, c: Component, v: Value, field: string)
    requires Castable(c, v)
    ensures (forall row :: Keeps(num, row, Compile(c, v, field)) <==> Meant(num, c, v, CellOf(row, field)))
            <==> Faithful(c, v)
  {
    if Faithful(c, v) {
      forall row
        ensures Keeps(num, row, Compile(c, v, field)) <==> Meant(num, c, v, CellOf(row, field))
      {
        CompiledMeansMeant(num, c, v, field, row);
      }
    } else {
      var cell;
      if c.DateRange? {
        DateBoundIff(v.to.value);
        cell := CTime(EndBound(v.to.value));
      } else {
        GlobFaithfulIff(v.s);
        var s :| !(LikeMatches(StarsToPercent(v.s), s) <==> GlobMatches(v.s, s));
        cell := CText(s);
      }
      var row: Row := map[field := cell];
      assert CellOf(row, field) == cell;
      assert !(Keeps(num, row, Compile(c, v, field)) <==> Meant(num, c, v, CellOf(row, field)));
    }
  }
}
