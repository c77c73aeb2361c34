/** Attendance accounting of the attendance service: the working-day count of
    a period, an employee's hour summary, the period report built from the
    per-employee query rows, and the approval of a pending record. */
module Attendance {
  import opened Wrappers
  import opened Calendar
  import Employee

  // ------------------------------------------------------------------ records

  /** A date as its proleptic Gregorian ordinal (0001-01-01 is day 1, a Monday),
      as date.toordinal() numbers it. */
  type Day = int

  /** date.weekday(): 0 for Monday through 6 for Sunday. */
  function Weekday(d: Day): (w: int)
    ensures 0 <= w <= 6
  {
    (d - 1) % 7
  }

  predicate IsSunday(d: Day) {
    Weekday(d) == 6
  }

  /** The approval state stored in the estado column. */
  datatype Status = Pendiente | Aprobado | Rechazado

  /** One row of the asistencias table. Times of day are seconds after
      midnight; hours are possibly-NULL stored values. */
  datatype AsistenciaRow = AsistenciaRow(
    id: int,
    empleadoId: int,
    fecha: Day,
    horaEntrada: Option<int>,
    horaSalida: Option<int>,
    horasTrabajadas: Option<real>,
    horasExtras: Option<real>,
    observaciones: Option<string>,
    estado: Status,
    usuarioAprobacion: Option<int>,
    fechaAprobacion: Option<DateTime>)

  // ------------------------------------------------------------- working days

  /** The number of days in [inicio, fin] that are not Sundays. */
  function WorkingDays(inicio: Day, fin: Day): (n: nat)
    decreases fin - inicio
    ensures n <= if inicio <= fin then fin - inicio + 1 else 0
  {
    if fin < inicio then 0
    else WorkingDays(inicio, fin - 1) + (if IsSunday(fin) then 0 else 1)
  }

  /** The ordinal of date.max, 9999-12-31: no later day exists. */
  const MaxOrdinal: Day := 3652059

  /** The exception `date + timedelta(days=1)` raises on date.max. */
  datatype DateOverflow = OverflowError

  /** The day-by-day loop: walk from fecha_inicio to fecha_fin inclusive,
      counting every day whose weekday is not Sunday, one day forward after
      each. The step after date.max fails, so a range that reaches date.max
      raises instead of returning a count. */
  method CountWorkingDays(fechaInicio: Day, fechaFin: Day) returns (r: Result<nat, DateOverflow>)
    ensures r.Failure? <==> fechaInicio <= MaxOrdinal <= fechaFin
    ensures r.Success? ==> r.value == WorkingDays(fechaInicio, fechaFin)
    ensures fechaFin < fechaInicio ==> r == Success(0)
  {
    var diasPeriodo := 0;
    var currentDate := fechaInicio;
    while currentDate <= fechaFin
      invariant fechaInicio <= currentDate
      invariant currentDate == fechaInicio || currentDate <= fechaFin + 1
      invariant currentDate <= MaxOrdinal || MaxOrdinal < fechaInicio
      invariant diasPeriodo == WorkingDays(fechaInicio, currentDate - 1)
      decreases fechaFin - currentDate
    {
      if Weekday(currentDate) != 6 {
        diasPeriodo := diasPeriodo + 1;
      }
      if currentDate == MaxOrdinal {
        return Failure(OverflowError);
      }
      currentDate := currentDate + 1;
    }
    r := Success(diasPeriodo);
  }

  /** The non-Sunday days of [inicio, fin], as a set. */
  ghost function WorkingDaySet(inicio: Day, fin: Day): set<Day> {
    set d: Day | inicio <= d <= fin && !IsSunday(d)
  }

  /** The count is the size of the set of non-Sunday days in the range. */
  lemma {:induction false} WorkingDaysIsCount(inicio: Day, fin: Day)
    decreases fin - inicio
    ensures WorkingDays(inicio, fin) == |WorkingDaySet(inicio, fin)|
  {
    if fin < inicio {
      assert WorkingDaySet(inicio, fin) == {};
    } else {
      WorkingDaysIsCount(inicio, fin - 1);
      if IsSunday(fin) {
        assert WorkingDaySet(inicio, fin) == WorkingDaySet(inicio, fin - 1);
      } else {
        assert WorkingDaySet(inicio, fin) == WorkingDaySet(inicio, fin - 1) + {fin};
      }
    }
  }

  /** Counting two adjacent ranges separately adds up to counting their union. */
  lemma {:induction false} WorkingDaysSplit(inicio: Day, medio: Day, fin: Day)
    requires inicio - 1 <= medio <= fin
    decreases fin - medio
    ensures WorkingDays(inicio, fin) == WorkingDays(inicio, medio) + WorkingDays(medio + 1, fin)
  {
    if medio < fin {
      WorkingDaysSplit(inicio, medio, fin - 1);
    }
  }

  /** Moving k days forward moves the weekday k places round the week. */
  lemma WeekdayShift(d: Day, k: nat)
    ensures Weekday(d + k) == (Weekday(d) + k) % 7
  {
    var m := (d - 1) / 7;
    assert d - 1 == 7 * m + Weekday(d);
    assert d + k - 1 == 7 * m + (Weekday(d) + k);
  }

  /** Any seven consecutive days hold exactly six working days. */
  lemma WorkingDaysWeek(inicio: Day)
    ensures WorkingDays(inicio, inicio + 6) == 6
  {
    var w := Weekday(inicio);
    WeekdayShift(inicio, 1);
    WeekdayShift(inicio, 2);
    WeekdayShift(inicio, 3);
    WeekdayShift(inicio, 4);
    WeekdayShift(inicio, 5);
    WeekdayShift(inicio, 6);
    assert WorkingDays(inicio, inicio) == (if w == 6 then 0 else 1);
    assert WorkingDays(inicio, inicio + 1) == WorkingDays(inicio, inicio) + (if w == 5 then 0 else 1);
    assert WorkingDays(inicio, inicio + 2) == WorkingDays(inicio, inicio + 1) + (if w == 4 then 0 else 1);
    assert WorkingDays(inicio, inicio + 3) == WorkingDays(inicio, inicio + 2) + (if w == 3 then 0 else 1);
    assert WorkingDays(inicio, inicio + 4) == WorkingDays(inicio, inicio + 3) + (if w == 2 then 0 else 1);
    assert WorkingDays(inicio, inicio + 5) == WorkingDays(inicio, inicio + 4) + (if w == 1 then 0 else 1);
    assert WorkingDays(inicio, inicio + 6) == WorkingDays(inicio, inicio + 5) + (if w == 0 then 0 else 1);
  }

  /** k full weeks hold exactly 6k working days. */
  lemma {:induction false} WorkingDaysWeeks(inicio: Day, k: nat)
    ensures WorkingDays(inicio, inicio + 7 * k - 1) == 6 * k
  {
    if k > 0 {
      WorkingDaysWeeks(inicio, k - 1);
      WorkingDaysSplit(inicio, inicio + 7 * (k - 1) - 1, inicio + 7 * k - 1);
      WorkingDaysWeek(inicio + 7 * (k - 1));
    }
  }

  // ------------------------------------------------------------ hour summary

  /** The query of calcular_horas_empleado: this employee, a date inside the
      inclusive range, status Aprobado. */
  predicate Included(a: AsistenciaRow, empleadoId: int, inicio: Day, fin: Day) {
    a.empleadoId == empleadoId && inicio <= a.fecha <= fin && a.estado == Aprobado
  }

  /** The records the query returns, in table order. */
  function Filter(rows: seq<AsistenciaRow>, empleadoId: int, inicio: Day, fin: Day): (r: seq<AsistenciaRow>)
    ensures |r| <= |rows|
    ensures forall a | a in r :: a in rows && Included(a, empleadoId, inicio, fin)
    ensures forall a | a in rows && Included(a, empleadoId, inicio, fin) :: a in r
  {
    if rows == [] then []
    else
      var prefix := rows[..|rows| - 1];
      var last := rows[|rows| - 1];
      assert rows == prefix + [last];
      Filter(prefix, empleadoId, inicio, fin) + (if Included(last, empleadoId, inicio, fin) then [last] else [])
  }

  /** The query keeps every selected record as often as the table holds it,
      and no other. */
  lemma {:induction false} FilterMultiset(rows: seq<AsistenciaRow>, empleadoId: int, inicio: Day, fin: Day, a: AsistenciaRow)
    ensures multiset(Filter(rows, empleadoId, inicio, fin))[a] ==
      if Included(a, empleadoId, inicio, fin) then multiset(rows)[a] else 0
  {
    if rows != [] {
      var prefix := rows[..|rows| - 1];
      var last := rows[|rows| - 1];
      assert rows == prefix + [last];
      FilterMultiset(prefix, empleadoId, inicio, fin, a);
    }
  }

  function Trabajadas(a: AsistenciaRow): Option<real> { a.horasTrabajadas }

  function Extras(a: AsistenciaRow): Option<real> { a.horasExtras }

  /** sum(hours(a) for a in rows if hours(a) is not None). */
  function SumHours(rows: seq<AsistenciaRow>, hours: AsistenciaRow -> Option<real>): real {
    if rows == [] then 0.0
    else
      var last := rows[|rows| - 1];
      SumHours(rows[..|rows| - 1], hours) + (if hours(last).Some? then hours(last).value else 0.0)
  }

  /** With no negative stored hours the sum is not negative. */
  lemma {:induction false} SumHoursNonNegative(rows: seq<AsistenciaRow>, hours: AsistenciaRow -> Option<real>)
    requires forall a | a in rows :: hours(a).Some? ==> hours(a).value >= 0.0
    ensures SumHours(rows, hours) >= 0.0
  {
    if rows != [] {
      var prefix := rows[..|rows| - 1];
      assert forall a | a in prefix :: a in rows;
      SumHoursNonNegative(prefix, hours);
    }
  }

  /** What calcular_horas_empleado returns: totals before rounding to two places. */
  datatype HoursSummary = HoursSummary(
    totalTrabajadas: real,
    totalExtras: real,
    diasAsistidos: nat,
    diasFaltantes: int,
    diasPeriodo: nat)

  /** calcular_horas_empleado over the employees table (the set of known ids)
      and the asistencias table. Success(None) exactly when the employee is
      unknown; Failure when the working-day loop steps past date.max. */
  method CalcularHorasEmpleado(empleados: set<int>, asistencias: seq<AsistenciaRow>,
                               empleadoId: int, fechaInicio: Day, fechaFin: Day)
    returns (r: Result<Option<HoursSummary>, DateOverflow>)
    ensures (r.Success? && r.value.None?) <==> empleadoId !in empleados
    ensures r.Failure? <==> empleadoId in empleados && fechaInicio <= MaxOrdinal <= fechaFin
    ensures r.Success? && r.value.Some? ==>
      var s := r.value.value;
      var incluidas := Filter(asistencias, empleadoId, fechaInicio, fechaFin);
      && s.totalTrabajadas == SumHours(incluidas, Trabajadas)
      && s.totalExtras == SumHours(incluidas, Extras)
      && s.diasAsistidos == |incluidas|
      && s.diasPeriodo == |WorkingDaySet(fechaInicio, fechaFin)|
      && s.diasFaltantes == s.diasPeriodo - s.diasAsistidos
  {
    if empleadoId !in empleados {
      return Success(None);
    }
    var incluidas := Filter(asistencias, empleadoId, fechaInicio, fechaFin);
    var totalTrabajadas := SumHours(incluidas, Trabajadas);
    var totalExtras := SumHours(incluidas, Extras);
    var diasAsistidos := |incluidas|;
    var conteo := CountWorkingDays(fechaInicio, fechaFin);
    if conteo.Failure? {
      return Failure(conteo.error);
    }
    var diasPeriodo := conteo.value;
    WorkingDaysIsCount(fechaInicio, fechaFin);
    var diasFaltantes := diasPeriodo - diasAsistidos;
    r := Success(Some(HoursSummary(totalTrabajadas, totalExtras, diasAsistidos, diasFaltantes, diasPeriodo)));
  }

  /** A period with no included record: both totals are 0, nothing attended,
      every working day missing. */
  lemma SummaryWithoutRecords(asistencias: seq<AsistenciaRow>, empleadoId: int, inicio: Day, fin: Day)
    requires forall a | a in asistencias :: !Included(a, empleadoId, inicio, fin)
    ensures Filter(asistencias, empleadoId, inicio, fin) == []
    ensures SumHours(Filter(asistencias, empleadoId, inicio, fin), Trabajadas) == 0.0
    ensures SumHours(Filter(asistencias, empleadoId, inicio, fin), Extras) == 0.0
  {
  }

  /** Adding a record the query does not select changes nothing. */
  lemma FilterIgnores(rows: seq<AsistenciaRow>, a: AsistenciaRow, empleadoId: int, inicio: Day, fin: Day)
    requires !Included(a, empleadoId, inicio, fin)
    ensures Filter(rows + [a], empleadoId, inicio, fin) == Filter(rows, empleadoId, inicio, fin)
  {
    assert (rows + [a])[..|rows|] == rows;
  }

  lemma SumHoursAppend(rows: seq<AsistenciaRow>, a: AsistenciaRow, hours: AsistenciaRow -> Option<real>)
    ensures SumHours(rows + [a], hours) == SumHours(rows, hours) + hours(a).GetOr(0.0)
  {
    assert (rows + [a])[..|rows|] == rows;
  }

  /** Adding a selected record adds one attended day and its hours. */
  lemma FilterAdds(rows: seq<AsistenciaRow>, a: AsistenciaRow, empleadoId: int, inicio: Day, fin: Day)
    requires Included(a, empleadoId, inicio, fin)
    ensures var before := Filter(rows, empleadoId, inicio, fin);
      var after := Filter(rows + [a], empleadoId, inicio, fin);
      && |after| == |before| + 1
      && SumHours(after, Trabajadas) == SumHours(before, Trabajadas) + a.horasTrabajadas.GetOr(0.0)
      && SumHours(after, Extras) == SumHours(before, Extras) + a.horasExtras.GetOr(0.0)
  {
    var before := Filter(rows, empleadoId, inicio, fin);
    assert (rows + [a])[..|rows|] == rows;
    assert Filter(rows + [a], empleadoId, inicio, fin) == before + [a];
    SumHoursAppend(before, a, Trabajadas);
    SumHoursAppend(before, a, Extras);
  }

  /** Dates of a list of records. */
  ghost function Dates(rows: seq<AsistenciaRow>): set<Day> {
    set a | a in rows :: a.fecha
  }

  lemma {:induction false} SubsetCard<T>(a: set<T>, b: set<T>)
    requires a <= b
    decreases b
    ensures |a| <= |b|
  {
    if a != {} {
      var x :| x in a;
      SubsetCard(a - {x}, b - {x});
    }
  }

  /** At most one record per employee and day. */
  predicate OnePerDay(rows: seq<AsistenciaRow>) {
    forall i, j | 0 <= i < j < |rows| && rows[i].empleadoId == rows[j].empleadoId ::
      rows[i].fecha != rows[j].fecha
  }

  /** No record approved on a Sunday. */
  predicate NoSundayApprovals(rows: seq<AsistenciaRow>) {
    forall a | a in rows && a.estado == Aprobado :: !IsSunday(a.fecha)
  }

  lemma DatesAppend(s: seq<AsistenciaRow>, a: AsistenciaRow)
    ensures Dates(s + [a]) == Dates(s) + {a.fecha}
  {
    assert forall b | b in s + [a] :: b in s || b == a;
  }

  /** The last record's date is not among the selected records of the prefix. */
  lemma LastDateIsNew(rows: seq<AsistenciaRow>, empleadoId: int, inicio: Day, fin: Day)
    requires rows != [] && OnePerDay(rows)
    requires rows[|rows| - 1].empleadoId == empleadoId
    ensures rows[|rows| - 1].fecha !in Dates(Filter(rows[..|rows| - 1], empleadoId, inicio, fin))
  {
    var prefix := rows[..|rows| - 1];
    var last := rows[|rows| - 1];
    forall a | a in Filter(prefix, empleadoId, inicio, fin)
      ensures a.fecha != last.fecha
    {
      var i :| 0 <= i < |prefix| && prefix[i] == a;
      assert rows[i] == a;
    }
  }

  /** With no record approved on a Sunday, the selected records' dates are
      working days of the period. */
  lemma FilterDatesWithin(rows: seq<AsistenciaRow>, empleadoId: int, inicio: Day, fin: Day)
    requires NoSundayApprovals(rows)
    ensures Dates(Filter(rows, empleadoId, inicio, fin)) <= WorkingDaySet(inicio, fin)
  {
    var r := Filter(rows, empleadoId, inicio, fin);
    forall d | d in Dates(r)
      ensures d in WorkingDaySet(inicio, fin)
    {
      var a :| a in r && a.fecha == d;
      assert a in rows;
    }
  }

  /** With at most one record per employee and day, the selected records have
      pairwise distinct dates. */
  lemma {:induction false} FilterDates(rows: seq<AsistenciaRow>, empleadoId: int, inicio: Day, fin: Day)
    requires OnePerDay(rows)
    ensures var r := Filter(rows, empleadoId, inicio, fin); |Dates(r)| == |r|
  {
    if rows != [] {
      var prefix := rows[..|rows| - 1];
      var last := rows[|rows| - 1];
      assert OnePerDay(prefix) by {
        forall i, j | 0 <= i < j < |prefix| && prefix[i].empleadoId == prefix[j].empleadoId
          ensures prefix[i].fecha != prefix[j].fecha
        {
          assert prefix[i] == rows[i] && prefix[j] == rows[j];
        }
      }
      FilterDates(prefix, empleadoId, inicio, fin);
      var before := Filter(prefix, empleadoId, inicio, fin);
      if Included(last, empleadoId, inicio, fin) {
        assert Filter(rows, empleadoId, inicio, fin) == before + [last];
        LastDateIsNew(rows, empleadoId, inicio, fin);
        DatesAppend(before, last);
      } else {
        assert Filter(rows, empleadoId, inicio, fin) == before;
      }
    }
  }

  /** Missing days are never negative when the employee has at most one record
      per day and none approved on a Sunday. */
  lemma FaltantesNonNegative(asistencias: seq<AsistenciaRow>, empleadoId: int, inicio: Day, fin: Day)
    requires OnePerDay(asistencias) && NoSundayApprovals(asistencias)
    ensures |Filter(asistencias, empleadoId, inicio, fin)| <= WorkingDays(inicio, fin)
  {
    var r := Filter(asistencias, empleadoId, inicio, fin);
    FilterDates(asistencias, empleadoId, inicio, fin);
    FilterDatesWithin(asistencias, empleadoId, inicio, fin);
    SubsetCard(Dates(r), WorkingDaySet(inicio, fin));
    WorkingDaysIsCount(inicio, fin);
  }

  /** Neither condition can be dropped. Without NoSundayApprovals: one approved
      record on a Sunday (day 7) in a one-day period counts as attended while
      the period has no working day. */
  lemma FaltantesCanBeNegative(a: AsistenciaRow)
    requires a.empleadoId == 1 && a.fecha == 7 && a.estado == Aprobado
    ensures OnePerDay([a]) && !NoSundayApprovals([a])
    ensures WorkingDays(7, 7) - |Filter([a], 1, 7, 7)| == -1
  {
    assert Filter([a], 1, 7, 7) == [a];
  }

  /** Without OnePerDay: two approved records of one employee on the same
      Monday (day 1) both count as attended in a one-day period. */
  lemma FaltantesNegativeWithDuplicates(a: AsistenciaRow, b: AsistenciaRow)
    requires a.empleadoId == 1 && a.fecha == 1 && a.estado == Aprobado
    requires b.empleadoId == 1 && b.fecha == 1 && b.estado == Aprobado
    ensures NoSundayApprovals([a, b]) && !OnePerDay([a, b])
    ensures WorkingDays(1, 1) - |Filter([a, b], 1, 1, 1)| == -1
  {
    assert [a, b][..1] == [a];
    assert Filter([a], 1, 1, 1) == [a];
    assert Filter([a, b], 1, 1, 1) == [a, b];
  }

  // ------------------------------------------------------------------- report

  /** SQL SUM over a group: NULL when no row of the group holds a value. */
  function SqlSum(rows: seq<AsistenciaRow>, hours: AsistenciaRow -> Option<real>): Option<real> {
    if rows == [] then None
    else
      var before := SqlSum(rows[..|rows| - 1], hours);
      var h := hours(rows[|rows| - 1]);
      if h.None? then before
      else if before.None? then h
      else Some(before.value + h.value)
  }

  /** `SUM(...) or 0` is the Python sum that skips None hours. */
  lemma {:induction false} SqlSumOrZero(rows: seq<AsistenciaRow>, hours: AsistenciaRow -> Option<real>)
    ensures SqlSum(rows, hours).GetOr(0.0) == SumHours(rows, hours)
  {
    if rows != [] {
      SqlSumOrZero(rows[..|rows| - 1], hours);
    }
  }

  /** One row of the grouped outer join: an active employee with the SQL
      aggregates of their selected records. */
  datatype ReportInputRow = ReportInputRow(
    id: int,
    cedula: string,
    nombres: string,
    apellidos: string,
    area: string,
    unidadProductiva: Option<string>,
    totalTrabajadas: Option<real>,
    totalExtras: Option<real>,
    diasAsistidos: nat)

  /** The row the grouped outer join produces for one employee. */
  function JoinRow(e: Employee.Empleado, asistencias: seq<AsistenciaRow>, inicio: Day, fin: Day): ReportInputRow {
    var incluidas := Filter(asistencias, e.id, inicio, fin);
    ReportInputRow(e.id, e.cedula, e.nombres, e.apellidos, e.area, e.unidadProductiva,
                   SqlSum(incluidas, Trabajadas), SqlSum(incluidas, Extras), |incluidas|)
  }

  datatype EmpleadoReporte = EmpleadoReporte(
    id: int,
    cedula: string,
    nombres: string,
    apellidos: string,
    nombreCompleto: string,
    area: string,
    unidadProductiva: Option<string>,
    horasTrabajadas: real,
    horasExtras: real,
    diasAsistidos: nat,
    diasFaltantes: int,
    porcentajeAsistencia: real)

  datatype Periodo = Periodo(fechaInicio: Day, fechaFin: Day, diasLaborables: nat)

  datatype Filtros = Filtros(area: Option<string>, unidadProductiva: Option<string>)

  datatype Resumen = Resumen(
    totalEmpleados: nat,
    totalHorasTrabajadas: real,
    totalHorasExtras: real,
    promedioAsistencia: real)

  datatype Reporte = Reporte(periodo: Periodo, filtros: Filtros, resumen: Resumen, empleados: seq<EmpleadoReporte>)

  /** Attended days as a percentage of the working days, 0 for a period
      without working days (before rounding to two places). */
  function Porcentaje(dias: nat, diasPeriodo: nat): (p: real)
    ensures diasPeriodo > 0 ==> p * (diasPeriodo as real) == (dias as real) * 100.0
    ensures diasPeriodo == 0 ==> p == 0.0
    ensures diasPeriodo > 0 && dias <= diasPeriodo ==> 0.0 <= p <= 100.0
  {
    if diasPeriodo > 0 then ((dias as real) / (diasPeriodo as real)) * 100.0 else 0.0
  }

  /** One entry of the empleados list. */
  function ReportRow(r: ReportInputRow, diasPeriodo: nat): EmpleadoReporte {
    EmpleadoReporte(r.id, r.cedula, r.nombres, r.apellidos,
      Employee.NombreCompleto(r.nombres, r.apellidos), r.area, r.unidadProductiva,
      r.totalTrabajadas.GetOr(0.0), r.totalExtras.GetOr(0.0), r.diasAsistidos,
      diasPeriodo - r.diasAsistidos, Porcentaje(r.diasAsistidos, diasPeriodo))
  }

  function SumReal(xs: seq<real>): real {
    if xs == [] then 0.0 else SumReal(xs[..|xs| - 1]) + xs[|xs| - 1]
  }

  function SumNat(xs: seq<nat>): nat {
    if xs == [] then 0 else SumNat(xs[..|xs| - 1]) + xs[|xs| - 1]
  }

  /** The report dictionary built from the query rows and the working-day count. */
  function BuildReporte(fechaInicio: Day, fechaFin: Day, area: Option<string>, unidadProductiva: Option<string>,
                        results: seq<ReportInputRow>, diasPeriodo: nat): Reporte
  {
    var n := |results|;
    var dias := SumNat(seq(n, i requires 0 <= i < n => results[i].diasAsistidos));
    Reporte(
      Periodo(fechaInicio, fechaFin, diasPeriodo),
      Filtros(area, unidadProductiva),
      Resumen(
        n,
        SumReal(seq(n, i requires 0 <= i < n => results[i].totalTrabajadas.GetOr(0.0))),
        SumReal(seq(n, i requires 0 <= i < n => results[i].totalExtras.GetOr(0.0))),
        if n > 0 then (dias as real) / (n as real) else 0.0),
      seq(n, i requires 0 <= i < n => ReportRow(results[i], diasPeriodo)))
  }

  /** generar_reporte_asistencias after its query: count the working days of
      the period once, then build the report. The count fails like the one
      of calcular_horas_empleado when the period reaches date.max. */
  method GenerarReporteAsistencias(fechaInicio: Day, fechaFin: Day, area: Option<string>,
                                   unidadProductiva: Option<string>, results: seq<ReportInputRow>)
    returns (r: Result<Reporte, DateOverflow>)
    ensures r.Failure? <==> fechaInicio <= MaxOrdinal <= fechaFin
    ensures r.Success? ==> r.value.periodo.diasLaborables == |WorkingDaySet(fechaInicio, fechaFin)|
    ensures r.Success? ==> r.value == BuildReporte(fechaInicio, fechaFin, area, unidadProductiva, results,
                                                   r.value.periodo.diasLaborables)
  {
    var conteo := CountWorkingDays(fechaInicio, fechaFin);
    if conteo.Failure? {
      return Failure(conteo.error);
    }
    WorkingDaysIsCount(fechaInicio, fechaFin);
    r := Success(BuildReporte(fechaInicio, fechaFin, area, unidadProductiva, results, conteo.value));
  }

  /** The summary agrees with the rows: one employee per row, and the hour
      totals are the sums of the rows' hours. */
  lemma ReporteResumen(fechaInicio: Day, fechaFin: Day, area: Option<string>, unidadProductiva: Option<string>,
                       results: seq<ReportInputRow>, diasPeriodo: nat)
    ensures var rep := BuildReporte(fechaInicio, fechaFin, area, unidadProductiva, results, diasPeriodo);
      var n := |rep.empleados|;
      && rep.resumen.totalEmpleados == n == |results|
      && rep.resumen.totalHorasTrabajadas == SumReal(seq(n, i requires 0 <= i < n => rep.empleados[i].horasTrabajadas))
      && rep.resumen.totalHorasExtras == SumReal(seq(n, i requires 0 <= i < n => rep.empleados[i].horasExtras))
      && (n == 0 ==> rep.resumen.totalHorasTrabajadas == 0.0 && rep.resumen.totalHorasExtras == 0.0)
  {
    var rep := BuildReporte(fechaInicio, fechaFin, area, unidadProductiva, results, diasPeriodo);
    var n := |results|;
    var fromRows := seq(n, i requires 0 <= i < n => rep.empleados[i].horasTrabajadas);
    var fromResults := seq(n, i requires 0 <= i < n => results[i].totalTrabajadas.GetOr(0.0));
    assert forall i | 0 <= i < n :: fromRows[i] == fromResults[i];
    assert fromRows == fromResults;
    var extrasRows := seq(n, i requires 0 <= i < n => rep.empleados[i].horasExtras);
    var extrasResults := seq(n, i requires 0 <= i < n => results[i].totalExtras.GetOr(0.0));
    assert forall i | 0 <= i < n :: extrasRows[i] == extrasResults[i];
    assert extrasRows == extrasResults;
  }

  /** promedio_asistencia is the mean of the rows' attended days, 0 without rows. */
  lemma ReportePromedio(fechaInicio: Day, fechaFin: Day, area: Option<string>, unidadProductiva: Option<string>,
                        results: seq<ReportInputRow>, diasPeriodo: nat)
    ensures var rep := BuildReporte(fechaInicio, fechaFin, area, unidadProductiva, results, diasPeriodo);
      var n := |rep.empleados|;
      && (n > 0 ==> rep.resumen.promedioAsistencia * (n as real)
                    == SumNat(seq(n, i requires 0 <= i < n => rep.empleados[i].diasAsistidos)) as real)
      && (n == 0 ==> rep.resumen.promedioAsistencia == 0.0)
  {
    var rep := BuildReporte(fechaInicio, fechaFin, area, unidadProductiva, results, diasPeriodo);
    var n := |results|;
    var fromRows := seq(n, i requires 0 <= i < n => rep.empleados[i].diasAsistidos);
    var fromResults := seq(n, i requires 0 <= i < n => results[i].diasAsistidos);
    assert forall i | 0 <= i < n :: fromRows[i] == fromResults[i];
    assert fromRows == fromResults;
  }

  /** Every row copies its employee's query row, NULL hour sums shown as 0,
      and is computed against the same working-day count: attended plus
      missing days make up the period, and the percentage relates them. */
  lemma ReporteRows(fechaInicio: Day, fechaFin: Day, area: Option<string>, unidadProductiva: Option<string>,
                    results: seq<ReportInputRow>, diasPeriodo: nat, i: nat)
    requires i < |results|
    ensures var rep := BuildReporte(fechaInicio, fechaFin, area, unidadProductiva, results, diasPeriodo);
      var row := rep.empleados[i];
      && row.diasAsistidos + row.diasFaltantes == rep.periodo.diasLaborables
      && (rep.periodo.diasLaborables > 0 ==>
           row.porcentajeAsistencia * (rep.periodo.diasLaborables as real) == (row.diasAsistidos as real) * 100.0)
      && (rep.periodo.diasLaborables == 0 ==> row.porcentajeAsistencia == 0.0)
      && row.diasAsistidos == results[i].diasAsistidos
      && row.horasTrabajadas == results[i].totalTrabajadas.GetOr(0.0)
      && row.horasExtras == results[i].totalExtras.GetOr(0.0)
      && row.id == results[i].id && row.cedula == results[i].cedula
      && row.nombres == results[i].nombres && row.apellidos == results[i].apellidos
      && row.area == results[i].area && row.unidadProductiva == results[i].unidadProductiva
      && row.nombreCompleto == results[i].nombres + " " + results[i].apellidos
  {
  }

  /** For an employee with no approved record in the period, the join's SUMs are
      NULL and the report shows 0 hours and the whole period missing. */
  lemma ReportRowWithoutRecords(e: Employee.Empleado, asistencias: seq<AsistenciaRow>, inicio: Day, fin: Day)
    requires forall a | a in asistencias :: !Included(a, e.id, inicio, fin)
    ensures var r := JoinRow(e, asistencias, inicio, fin);
      && r.totalTrabajadas.None? && r.totalExtras.None?
      && ReportRow(r, WorkingDays(inicio, fin)).horasTrabajadas == 0.0
      && ReportRow(r, WorkingDays(inicio, fin)).diasFaltantes == WorkingDays(inicio, fin)
  {
    SummaryWithoutRecords(asistencias, e.id, inicio, fin);
  }

  /** The report row of an employee says what calcular_horas_empleado says about
      the same employee and period: same hour totals, attended and missing days. */
  lemma ReportAgreesWithSummary(e: Employee.Empleado, asistencias: seq<AsistenciaRow>, inicio: Day, fin: Day)
    ensures var row := ReportRow(JoinRow(e, asistencias, inicio, fin), WorkingDays(inicio, fin));
      var incluidas := Filter(asistencias, e.id, inicio, fin);
      && row.horasTrabajadas == SumHours(incluidas, Trabajadas)
      && row.horasExtras == SumHours(incluidas, Extras)
      && row.diasAsistidos == |incluidas|
      && row.diasFaltantes == WorkingDays(inicio, fin) - |incluidas|
  {
    var incluidas := Filter(asistencias, e.id, inicio, fin);
    SqlSumOrZero(incluidas, Trabajadas);
    SqlSumOrZero(incluidas, Extras);
  }

  // ----------------------------------------------------------------- approval

  /** The approval payload: estado must be 'Aprobado' or 'Rechazado';
      observaciones is optional. */
  datatype ApprovalData = ApprovalData(estado: Option<string>, observaciones: Option<string>)

  /** The error cases of aprobar_asistencia, in the order they are checked. */
  datatype ApprovalError =
    | DatosInvalidos
    | AsistenciaNoEncontrada
    | YaProcesada
    | UsuarioNoEncontrado
    | SinPermisos

  /** The roles allowed to approve or reject. */
  const RolesAprobadores: set<string> := {"administrador", "talento_humano"}

  /** The schema check on estado. */
  function RequestedStatus(data: ApprovalData): (s: Option<Status>)
    ensures s.Some? <==> data.estado == Some("Aprobado") || data.estado == Some("Rechazado")
    ensures s.Some? ==> s.value != Pendiente
  {
    if data.estado == Some("Aprobado") then Some(Aprobado)
    else if data.estado == Some("Rechazado") then Some(Rechazado)
    else None
  }

  function NotePrefix(estado: Status): string {
    if estado == Aprobado then "[Aprobación] " else "[Rechazo] "
  }

  /** The observations after the decision: a non-empty note, with its prefix,
      is appended after "; " to existing observations or replaces empty ones;
      without a note the observations stay as they were. */
  function ApprovalNote(obs: Option<string>, estado: Status, nota: Option<string>): Option<string> {
    if nota.None? || nota.value == "" then obs
    else if obs.Some? && obs.value != "" then Some(obs.value + "; " + NotePrefix(estado) + nota.value)
    else Some(NotePrefix(estado) + nota.value)
  }

  /** The outcome of aprobar_asistencia on the record found (if any) and the
      approver's role (if the approver exists): the updated record or the
      first error in checking order. */
  function Aprobacion(registro: Option<AsistenciaRow>, rol: Option<string>, usuarioId: int,
                      data: ApprovalData, now: DateTime): Result<AsistenciaRow, ApprovalError>
  {
    match RequestedStatus(data)
    case None => Failure(DatosInvalidos)
    case Some(estado) =>
      if registro.None? then Failure(AsistenciaNoEncontrada)
      else if registro.value.estado != Pendiente then Failure(YaProcesada)
      else if rol.None? then Failure(UsuarioNoEncontrado)
      else if rol.value !in RolesAprobadores then Failure(SinPermisos)
      else
        var r := registro.value;
        Success(r.(estado := estado,
                   usuarioAprobacion := Some(usuarioId),
                   fechaAprobacion := Some(now),
                   observaciones := ApprovalNote(r.observaciones, estado, data.observaciones)))
  }

  /** A stored attendance record, updated in place by the approval. */
  class Asistencia {
    var id: int
    var empleadoId: int
    var fecha: Day
    var horaEntrada: Option<int>
    var horaSalida: Option<int>
    var horasTrabajadas: Option<real>
    var horasExtras: Option<real>
    var observaciones: Option<string>
    var estado: Status
    var usuarioAprobacion: Option<int>
    var fechaAprobacion: Option<DateTime>

    /** The record's current column values. */
    function Row(): AsistenciaRow
      reads this
    {
      AsistenciaRow(id, empleadoId, fecha, horaEntrada, horaSalida, horasTrabajadas, horasExtras,
                    observaciones, estado, usuarioAprobacion, fechaAprobacion)
    }

    constructor(r: AsistenciaRow)
      ensures Row() == r
    {
      id := r.id;
      empleadoId := r.empleadoId;
      fecha := r.fecha;
      horaEntrada := r.horaEntrada;
      horaSalida := r.horaSalida;
      horasTrabajadas := r.horasTrabajadas;
      horasExtras := r.horasExtras;
      observaciones := r.observaciones;
      estado := r.estado;
      usuarioAprobacion := r.usuarioAprobacion;
      fechaAprobacion := r.fechaAprobacion;
    }
  }

  function Lookup<K, V>(m: map<K, V>, k: K): Option<V> {
    if k in m then Some(m[k]) else None
  }

  /** aprobar_asistencia over the asistencias table (id to record) and the
      usuarios table (id to role); the clock reading is the parameter now.
      The record is updated exactly as Aprobacion says, and left untouched on
      every error. */
  method AprobarAsistencia(asistencias: map<int, Asistencia>, asistenciaId: int,
                           usuarios: map<int, string>, usuarioId: int,
                           data: ApprovalData, now: DateTime)
    returns (result: Result<Asistencia, ApprovalError>)
    modifies if asistenciaId in asistencias then {asistencias[asistenciaId]} else {}
    ensures var registro := if asistenciaId in asistencias then Some(old(asistencias[asistenciaId].Row())) else None;
      var outcome := Aprobacion(registro, Lookup(usuarios, usuarioId), usuarioId, data, now);
      && (outcome.Failure? ==> result == Failure(outcome.error))
      && (outcome.Success? ==> asistenciaId in asistencias && result == Success(asistencias[asistenciaId])
                               && asistencias[asistenciaId].Row() == outcome.value)
    ensures result.Failure? && asistenciaId in asistencias ==> unchanged(asistencias[asistenciaId])
  {
    var estado := RequestedStatus(data);
    if estado.None? {
      return Failure(DatosInvalidos);
    }
    if asistenciaId !in asistencias {
      return Failure(AsistenciaNoEncontrada);
    }
    var asistencia := asistencias[asistenciaId];
    if asistencia.estado != Pendiente {
      return Failure(YaProcesada);
    }
    if usuarioId !in usuarios {
      return Failure(UsuarioNoEncontrado);
    }
    if usuarios[usuarioId] !in RolesAprobadores {
      return Failure(SinPermisos);
    }
    asistencia.estado := estado.value;
    asistencia.usuarioAprobacion := Some(usuarioId);
    asistencia.fechaAprobacion := Some(now);
    var nota := data.observaciones;
    if nota.Some? && nota.value != "" {
      var prefijo := NotePrefix(estado.value);
      if asistencia.observaciones.Some? && asistencia.observaciones.value != "" {
        asistencia.observaciones := Some(asistencia.observaciones.value + "; " + prefijo + nota.value);
      } else {
        asistencia.observaciones := Some(prefijo + nota.value);
      }
    }
    return Success(asistencia);
  }

  /** The approval succeeds exactly when the payload is valid, the record
      exists and is pending, and the approver exists with an approving role. */
  lemma AprobacionSucceeds(registro: Option<AsistenciaRow>, rol: Option<string>, usuarioId: int,
                           data: ApprovalData, now: DateTime)
    ensures Aprobacion(registro, rol, usuarioId, data, now).Success? <==>
      && (data.estado == Some("Aprobado") || data.estado == Some("Rechazado"))
      && registro.Some? && registro.value.estado == Pendiente
      && rol.Some? && (rol.value == "administrador" || rol.value == "talento_humano")
  {
  }

  /** The only transitions are Pendiente to Aprobado or Rechazado, as
      requested, recorded with the approver; the record's other columns
      (date, times, hours) keep their values. */
  lemma AprobacionTransition(r: AsistenciaRow, rol: Option<string>, usuarioId: int,
                             data: ApprovalData, now: DateTime)
    requires Aprobacion(Some(r), rol, usuarioId, data, now).Success?
    ensures var s := Aprobacion(Some(r), rol, usuarioId, data, now).value;
      && r.estado == Pendiente
      && s.estado == (if data.estado == Some("Aprobado") then Aprobado else Rechazado)
      && s.usuarioAprobacion == Some(usuarioId)
      && s.id == r.id && s.empleadoId == r.empleadoId && s.fecha == r.fecha
      && s.horaEntrada == r.horaEntrada && s.horaSalida == r.horaSalida
      && s.horasTrabajadas == r.horasTrabajadas && s.horasExtras == r.horasExtras
  {
  }

  /** A decided record is final: any later approval of it fails, with
      AlreadyProcessed once the payload itself is valid. */
  lemma AprobacionIsFinal(r: AsistenciaRow, rol: Option<string>, usuarioId: int, data: ApprovalData, now: DateTime,
                          rol2: Option<string>, usuarioId2: int, data2: ApprovalData, now2: DateTime)
    requires Aprobacion(Some(r), rol, usuarioId, data, now).Success?
    ensures var s := Aprobacion(Some(r), rol, usuarioId, data, now).value;
      Aprobacion(Some(s), rol2, usuarioId2, data2, now2) ==
        Failure(if RequestedStatus(data2).None? then DatosInvalidos else YaProcesada)
  {
  }

  /** The record is checked before the approver: for a missing or already
      processed record the outcome does not depend on who asks, or when. */
  lemma AprobacionRecordFirst(registro: Option<AsistenciaRow>, data: ApprovalData,
                              rol1: Option<string>, usuario1: int, now1: DateTime,
                              rol2: Option<string>, usuario2: int, now2: DateTime)
    requires registro.None? || registro.value.estado != Pendiente
    ensures Aprobacion(registro, rol1, usuario1, data, now1) == Aprobacion(registro, rol2, usuario2, data, now2)
    ensures Aprobacion(registro, rol1, usuario1, data, now1).Failure?
  {
  }

  /** Notes only ever append: existing observations survive as a prefix, and
      the note with its prefix ends the new text; no note, no change. Exactly:
      without prior observations the prefixed note is the whole text, and
      after them it follows "; ". */
  lemma ApprovalNoteAppends(obs: Option<string>, estado: Status, nota: Option<string>)
    ensures nota.None? || nota.value == "" ==> ApprovalNote(obs, estado, nota) == obs
    ensures nota.Some? && nota.value != "" && (obs.None? || obs.value == "") ==>
      ApprovalNote(obs, estado, nota) == Some(NotePrefix(estado) + nota.value)
    ensures nota.Some? && nota.value != "" && obs.Some? && obs.value != "" ==>
      ApprovalNote(obs, estado, nota) == Some(obs.value + "; " + NotePrefix(estado) + nota.value)
    ensures nota.Some? && nota.value != "" ==>
      var r := ApprovalNote(obs, estado, nota).value;
      var tail := NotePrefix(estado) + nota.value;
      && |r| >= |tail| && r[|r| - |tail|..] == tail
      && (obs.Some? ==> obs.value <= r)
  {
    if nota.Some? && nota.value != "" && obs.Some? && obs.value != "" {
      var tail := NotePrefix(estado) + nota.value;
      var r := obs.value + "; " + tail;
      assert r == (obs.value + "; ") + tail;
      assert r[|r| - |tail|..] == tail;
      assert obs.value == r[..|obs.value|];
    }
  }
}
