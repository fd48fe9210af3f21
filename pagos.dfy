/** The payments screen: each payment's total, the detail view's merged list
    of enrolment and course entries, its date sort and its grouping by year,
    and the rows of the exported sheet. */
module Pagos {
  import opened Js
  import opened Seqs

  /** A calendar date; the source's `'YYYY-MM-DD'` strings. */
  datatype Date = Date(year: int, month: int, day: int)

  /** Calendar order on dates whose month and day are in range. */
  function DateKey(d: Date): int {
    d.year * 10000 + d.month * 100 + d.day
  }

  predicate ValidDate(d: Date) {
    1 <= d.month <= 12 && 1 <= d.day <= 31
  }

  /** On valid dates the key orders by year, then month, then day. */
  lemma DateKeyOrder(a: Date, b: Date)
    requires ValidDate(a) && ValidDate(b)
    ensures DateKey(a) < DateKey(b) <==>
              a.year < b.year
              || (a.year == b.year && a.month < b.month)
              || (a.year == b.year && a.month == b.month && a.day < b.day)
    ensures DateKey(a) == DateKey(b) <==> a == b
  {
  }

  /** One enrolment fee (`matricula`). */
  datatype Matricula = Matricula(valor: int, fecha: Date)

  /** One course of the student's history. */
  datatype Course = Course(curso: string, precioCurso: int, fechaInicio: Date)

  /** A payment. `matriculas` is the list form of the enrolment fees and
      `matricula` the single-value form; `debes` is the outstanding amount. */
  datatype Payment = Payment(
    id: int, cliente: string, estudiante: string,
    matriculas: Option<seq<Matricula>>, matricula: Option<int>,
    debes: Option<int>, estado: bool, historial: Option<seq<Course>>)

  datatype Kind = Matric | Curso

  /** One row of the detail table. */
  datatype Entry = Entry(fecha: Date, tipo: Kind, concepto: string, valor: int)

  function CoursePrices(cs: seq<Course>): (r: seq<int>)
    ensures |r| == |cs| && forall i :: 0 <= i < |cs| ==> r[i] == cs[i].precioCurso
  {
    seq(|cs|, i requires 0 <= i < |cs| => cs[i].precioCurso)
  }


  /** `x || 0` on an optional number. */
  function OrZero(x: Option<int>): int {
    if x.Some? then x.value else 0
  }

  function Courses(p: Payment): seq<Course> {
    if p.historial.Some? then p.historial.value else []
  }

  /** The table's `valor_total`: course prices plus the enrolment list's sum,
      or else the single enrolment value, or else 0. */
  function ValorTotal(p: Payment): (t: int)
    ensures p.matriculas.Some? ==>
              t == Sum(CoursePrices(Courses(p))) + Sum(MatriculaValues(p.matriculas.value))
    ensures p.matriculas.None? ==> t == Sum(CoursePrices(Courses(p))) + OrZero(p.matricula)
  {
    Sum(CoursePrices(Courses(p))) +
      (if p.matriculas.Some? then Sum(MatriculaValues(p.matriculas.value)) else OrZero(p.matricula))
  }

  /** `matriculasArray`: the list when present; otherwise a single entry for a
      non-zero `matricula`, dated at the first course's start or `today`. */
  function MatriculasArray(p: Payment, today: Date): (ms: seq<Matricula>)
    ensures p.matriculas.Some? ==> ms == p.matriculas.value
    ensures p.matriculas.None? && OrZero(p.matricula) == 0 ==> ms == []
    ensures p.matriculas.None? && OrZero(p.matricula) != 0 ==>
              |ms| == 1 && ms[0].valor == p.matricula.value
              && ms[0].fecha == (if |Courses(p)| > 0 then Courses(p)[0].fechaInicio else today)
  {
    if p.matriculas.Some? then p.matriculas.value
    else if OrZero(p.matricula) != 0 then
      [Matricula(p.matricula.value, if |Courses(p)| > 0 then Courses(p)[0].fechaInicio else today)]
    else []
  }

  function MatricEntry(m: Matricula): Entry {
    Entry(m.fecha, Matric, "Matrícula", m.valor)
  }

  function CourseEntry(c: Course): Entry {
    Entry(c.fechaInicio, Curso, c.curso, c.precioCurso)
  }

  /** `allEntries`: the enrolment entries, then the course entries. */
  function AllEntries(p: Payment, today: Date): (es: seq<Entry>)
    ensures |es| == |MatriculasArray(p, today)| + |Courses(p)|
    ensures forall i :: 0 <= i < |MatriculasArray(p, today)| ==>
              es[i] == MatricEntry(MatriculasArray(p, today)[i])
    ensures forall i :: 0 <= i < |Courses(p)| ==>
              es[|MatriculasArray(p, today)| + i] == CourseEntry(Courses(p)[i])
  {
    var ms := MatriculasArray(p, today);
    var cs := Courses(p);
    seq(|ms|, i requires 0 <= i < |ms| => MatricEntry(ms[i]))
      + seq(|cs|, i requires 0 <= i < |cs| => CourseEntry(cs[i]))
  }

  function Values(es: seq<Entry>): (r: seq<int>)
    ensures |r| == |es| && forall i :: 0 <= i < |es| ==> r[i] == es[i].valor
  {
    seq(|es|, i requires 0 <= i < |es| => es[i].valor)
  }

  /** The enrolments' values: those of their detail-table entries. */
  function MatriculaValues(ms: seq<Matricula>): (r: seq<int>)
    ensures |r| == |ms| && forall i :: 0 <= i < |ms| ==> r[i] == ms[i].valor
  {
    Values(seq(|ms|, i requires 0 <= i < |ms| => MatricEntry(ms[i])))
  }

  /** `totalValue`: the sum of every entry's value. */
  function TotalValue(es: seq<Entry>): int {
    Sum(Values(es))
  }

  /** The detail view's total agrees with the table's `valor_total`. */
  lemma TotalValueIsValorTotal(p: Payment, today: Date)
    ensures TotalValue(AllEntries(p, today)) == ValorTotal(p)
  {
    var ms := MatriculasArray(p, today);
    EntryValues(ms, Courses(p));
    SumAppend(MatriculaValues(ms), CoursePrices(Courses(p)));
    if p.matriculas.None? && OrZero(p.matricula) != 0 {
      assert MatriculaValues(ms) == [p.matricula.value];
      assert Sum([p.matricula.value]) == p.matricula.value + Sum([]);
    } else if p.matriculas.None? {
      assert MatriculaValues(ms) == [];
    }
  }

  /** The values of enrolment entries followed by course entries are the
      enrolments' values, then the course prices. */
  lemma EntryValues(ms: seq<Matricula>, cs: seq<Course>)
    ensures Values(seq(|ms|, i requires 0 <= i < |ms| => MatricEntry(ms[i]))
                   + seq(|cs|, i requires 0 <= i < |cs| => CourseEntry(cs[i])))
            == MatriculaValues(ms) + CoursePrices(cs)
  {
    var es := seq(|ms|, i requires 0 <= i < |ms| => MatricEntry(ms[i]))
              + seq(|cs|, i requires 0 <= i < |cs| => CourseEntry(cs[i]));
    var vs := MatriculaValues(ms) + CoursePrices(cs);
    forall i | 0 <= i < |es| ensures Values(es)[i] == vs[i] {
      if i < |ms| {
        assert es[i] == MatricEntry(ms[i]);
      } else {
        assert es[i] == CourseEntry(cs[i - |ms|]);
      }
    }
  }

  // ---------------------------------------------------------------------------
  // Sorting by date, newest first

  function EntryKey(e: Entry): int {
    DateKey(e.fecha)
  }

  /** Non-increasing date order. */
  ghost predicate SortedDesc(s: seq<Entry>) {
    forall k, l :: 0 <= k < l < |s| ==> EntryKey(s[k]) >= EntryKey(s[l])
  }

  /** `allEntries.sort((a, b) => dateB - dateA)`, by insertion. */
  method SortByDateDesc(a: array<Entry>)
    modifies a
    ensures SortedDesc(a[..])
    ensures multiset(a[..]) == multiset(old(a[..]))
  {
    var i := 0;
    while i < a.Length
      invariant 0 <= i <= a.Length
      invariant SortedDesc(a[..i])
      invariant multiset(a[..]) == multiset(old(a[..]))
    {
      InsertDesc(a, i);
      i := i + 1;
    }
    assert a[..a.Length] == a[..];
  }

  /** Moves `a[i]` left past every strictly older entry. */
  method InsertDesc(a: array<Entry>, i: int)
    requires 0 <= i < a.Length
    requires SortedDesc(a[..i])
    modifies a
    ensures SortedDesc(a[..i + 1])
    ensures a[i + 1..] == old(a[i + 1..])
    ensures multiset(a[..]) == multiset(old(a[..]))
  {
    var j := i;
    assert forall k :: 0 <= k < i ==> a[..i][k] == a[k];
    while j > 0 && EntryKey(a[j - 1]) < EntryKey(a[j])
      invariant 0 <= j <= i
      invariant SortedExcept(a[..], i, j)
      invariant a[i + 1..] == old(a[i + 1..])
      invariant multiset(a[..]) == multiset(old(a[..]))
      decreases j
    {
      ghost var s := a[..];
      a[j - 1], a[j] := a[j], a[j - 1];
      assert a[..] == s[j - 1 := s[j]][j := s[j - 1]];
      SwapKeeps(s, i, j);
      j := j - 1;
    }
    InsertDone(a[..], i, j);
    assert forall k :: 0 <= k <= i ==> a[..i + 1][k] == a[..][k];
  }

  /** The insertion invariant: `s[..i + 1]` is sorted apart from position
      `j`, and the entry at `j` is strictly newer than everything after it. */
  ghost predicate SortedExcept(s: seq<Entry>, i: int, j: int)
    requires 0 <= j <= i < |s|
  {
    (forall k, l :: 0 <= k < l <= i && k != j && l != j ==> EntryKey(s[k]) >= EntryKey(s[l]))
    && (forall l :: j < l <= i ==> EntryKey(s[j]) > EntryKey(s[l]))
  }

  /** Swapping the moving entry with an older left neighbour keeps the
      insertion invariant one position further left, and permutes. */
  lemma SwapKeeps(s: seq<Entry>, i: int, j: int)
    requires 0 < j <= i < |s|
    requires SortedExcept(s, i, j)
    requires EntryKey(s[j - 1]) < EntryKey(s[j])
    ensures SortedExcept(s[j - 1 := s[j]][j := s[j - 1]], i, j - 1)
    ensures multiset(s[j - 1 := s[j]][j := s[j - 1]]) == multiset(s)
  {
  }

  /** When the moving entry meets an entry at least as new, or the front,
      the prefix is sorted. */
  lemma InsertDone(s: seq<Entry>, i: int, j: int)
    requires 0 <= j <= i < |s|
    requires SortedExcept(s, i, j)
    requires j > 0 ==> EntryKey(s[j - 1]) >= EntryKey(s[j])
    ensures forall k, l :: 0 <= k < l <= i ==> EntryKey(s[k]) >= EntryKey(s[l])
  {
  }

  // ---------------------------------------------------------------------------
  // Grouping by year

  function Year(e: Entry): int {
    e.fecha.year
  }

  predicate HasMatric(group: seq<Entry>) {
    exists k :: 0 <= k < |group| && group[k].tipo == Matric
  }

  /** The `reduce` step: open the year's group, then push the entry unless it
      is an enrolment and the year already has one. */
  function AddToYear(acc: map<int, seq<Entry>>, e: Entry): map<int, seq<Entry>> {
    var y := Year(e);
    var group := if y in acc then acc[y] else [];
    if e.tipo == Matric && HasMatric(group) then acc[y := group]
    else acc[y := group + [e]]
  }

  /** `entriesByYear` over the entries in order. */
  function ByYear(es: seq<Entry>): map<int, seq<Entry>>
    decreases |es|
  {
    if es == [] then map[] else AddToYear(ByYear(es[..|es| - 1]), es[|es| - 1])
  }

  /** The accumulator loop. */
  method EntriesByYear(es: seq<Entry>) returns (acc: map<int, seq<Entry>>)
    ensures acc == ByYear(es)
  {
    acc := map[];
    for i := 0 to |es|
      invariant acc == ByYear(es[..i])
    {
      var entry := es[i];
      var year := Year(entry);
      if year !in acc {
        acc := acc[year := []];
      }
      if entry.tipo == Matric {
        var hasMatricula := exists k :: 0 <= k < |acc[year]| && acc[year][k].tipo == Matric;
        if !hasMatricula {
          acc := acc[year := acc[year] + [entry]];
        }
      } else {
        acc := acc[year := acc[year] + [entry]];
      }
      assert es[..i + 1][..i] == es[..i];
    }
    assert es[..|es|] == es;
  }

  /** The number of enrolment entries in a group. */
  function MatricCount(group: seq<Entry>): nat
    decreases |group|
  {
    if group == [] then 0
    else MatricCount(group[..|group| - 1]) + (if group[|group| - 1].tipo == Matric then 1 else 0)
  }

  lemma {:induction false} MatricCountZero(group: seq<Entry>)
    ensures MatricCount(group) == 0 <==> !HasMatric(group)
    decreases |group|
  {
    if group != [] {
      var init := group[..|group| - 1];
      MatricCountZero(init);
      if HasMatric(init) {
        var k :| 0 <= k < |init| && init[k].tipo == Matric;
        assert group[k] == init[k];
      }
      if HasMatric(group) && group[|group| - 1].tipo != Matric {
        var k :| 0 <= k < |group| && group[k].tipo == Matric;
        assert init[k] == group[k];
      }
    }
  }

  /** Every group holds at most one enrolment and only entries of its year
      drawn from `es`. */
  ghost predicate WellGrouped(m: map<int, seq<Entry>>, es: seq<Entry>) {
    forall y :: y in m ==> MatricCount(m[y]) <= 1
                           && forall k :: 0 <= k < |m[y]| ==> Year(m[y][k]) == y && m[y][k] in es
  }

  /** Every group holds at most one enrolment and only entries of its year,
      drawn from the input. */
  lemma {:induction false} ByYearGroups(es: seq<Entry>)
    ensures forall y :: y in ByYear(es) ==> MatricCount(ByYear(es)[y]) <= 1
    ensures forall y :: y in ByYear(es) ==> forall k :: 0 <= k < |ByYear(es)[y]| ==>
              Year(ByYear(es)[y][k]) == y && ByYear(es)[y][k] in es
    decreases |es|
  {
    if es != [] {
      var init := es[..|es| - 1];
      ByYearGroups(init);
      assert forall x :: x in init ==> x in es;
      assert WellGrouped(ByYear(init), es);
      AddToYearWellGrouped(ByYear(init), es[|es| - 1], es);
    }
  }

  /** One step of the grouping keeps the groups well formed. */
  lemma AddToYearWellGrouped(prev: map<int, seq<Entry>>, e: Entry, es: seq<Entry>)
    requires WellGrouped(prev, es) && e in es
    ensures WellGrouped(AddToYear(prev, e), es)
  {
    var y := Year(e);
    var group := if y in prev then prev[y] else [];
    if e.tipo == Matric && !HasMatric(group) {
      MatricCountZero(group);
      assert (group + [e])[..|group|] == group;
    } else if e.tipo != Matric {
      assert (group + [e])[..|group|] == group;
    }
  }

  /** Every course entry is kept, in its year's group. */
  lemma {:induction false} ByYearKeepsCourses(es: seq<Entry>, i: int)
    requires 0 <= i < |es| && es[i].tipo == Curso
    ensures Year(es[i]) in ByYear(es) && es[i] in ByYear(es)[Year(es[i])]
    decreases |es|
  {
    var init := es[..|es| - 1];
    if i < |es| - 1 {
      ByYearKeepsCourses(init, i);
      KeptStaysKept(init, es[|es| - 1], es[i]);
    }
  }

  /** The first enrolment of each year is kept. */
  lemma {:induction false} ByYearKeepsFirstMatric(es: seq<Entry>, i: int)
    requires 0 <= i < |es| && es[i].tipo == Matric
    requires forall k :: 0 <= k < i && Year(es[k]) == Year(es[i]) ==> es[k].tipo != Matric
    ensures Year(es[i]) in ByYear(es) && es[i] in ByYear(es)[Year(es[i])]
    decreases |es|
  {
    var init := es[..|es| - 1];
    if i < |es| - 1 {
      ByYearKeepsFirstMatric(init, i);
      KeptStaysKept(init, es[|es| - 1], es[i]);
    } else {
      ByYearGroups(init);
      var prev := ByYear(init);
      var y := Year(es[i]);
      assert forall k :: 0 <= k < |init| ==> init[k] == es[k];
    }
  }

  /** Adding an entry never removes one already grouped. */
  lemma KeptStaysKept(init: seq<Entry>, e: Entry, x: Entry)
    requires Year(x) in ByYear(init) && x in ByYear(init)[Year(x)]
    ensures Year(x) in ByYear(init + [e]) && x in ByYear(init + [e])[Year(x)]
  {
    assert (init + [e])[..|init|] == init;
  }

  // ---------------------------------------------------------------------------
  // The exported sheet

  function NumOrUndefined(x: Option<int>): Value {
    if x.Some? then Num(x.value) else Undefined
  }

  /** `worksheetData`: the header, then one `[cliente, estudiante, debes]` row per payment. */
  function ExportRows(payments: seq<Payment>): (rows: seq<seq<Value>>)
    ensures |rows| == |payments| + 1
    ensures rows[0] == [Str("Cliente"), Str("Estudiante"), Str("Debe")]
    ensures forall i :: 0 <= i < |payments| ==>
              rows[i + 1] == [Str(payments[i].cliente), Str(payments[i].estudiante), NumOrUndefined(payments[i].debes)]
  {
    [[Str("Cliente"), Str("Estudiante"), Str("Debe")]]
      + seq(|payments|, i requires 0 <= i < |payments| =>
              [Str(payments[i].cliente), Str(payments[i].estudiante), NumOrUndefined(payments[i].debes)])
  }

  // ---------------------------------------------------------------------------
  // The screen's data

  function Payment1(): Payment {
    Payment(1, "Giacomo Guilizzoni", "Camilo Guilizzoni",
      Some([Matricula(50000, Date(2024, 1, 15)), Matricula(48000, Date(2023, 9, 10))]), None, None, true,
      Some([Course("Guitarra", 250000, Date(2024, 1, 15)),
            Course("Piano", 300000, Date(2023, 9, 10)),
            Course("Batería", 280000, Date(2024, 3, 1))]))
  }

  function Payment3(): Payment {
    Payment(3, "Juan Pérez", "Ana Pérez", None, Some(55000), None, true,
      Some([Course("Violín", 280000, Date(2024, 1, 20)),
            Course("Canto", 320000, Date(2024, 2, 15)),
            Course("Piano", 300000, Date(2024, 3, 10))]))
  }

  /** The first payment totals 928000; the third, with a single enrolment
      value dated at its first course, totals 955000. */
  lemma SampleTotals(today: Date)
    ensures ValorTotal(Payment1()) == 928000
    ensures ValorTotal(Payment3()) == 955000
    ensures MatriculasArray(Payment3(), today) == [Matricula(55000, Date(2024, 1, 20))]
  {
    assert CoursePrices(Courses(Payment1())) == [250000, 300000, 280000];
    assert MatriculaValues(Payment1().matriculas.value) == [50000, 48000];
    assert CoursePrices(Courses(Payment3())) == [280000, 320000, 300000];
  }
}
