# Attendance accounting, ID validation and input checks of an HR attendance service

This project models, in Dafny, the decision-making core of an HR attendance
REST service for a farm's production units. Employees clock in and out;
approvers accept or reject each day's record; administrators ask for
per-period hour reports. The core consists of the following parts.

- **Attendance accounting** (`attendance.dfy`, module `Attendance`).
  - `calcular_horas_empleado` is modelled as `CalcularHorasEmpleado`. It keeps
    one employee's approved records dated inside an inclusive range and sums
    their stored worked and overtime hours. It counts the range's working days
    (every day except Sunday) with a day-by-day loop (`CountWorkingDays`). The
    missing days are working days minus attended days.
  - The part of `generar_reporte_asistencias` that runs after its query is
    `GenerarReporteAsistencias` / `BuildReporte`. It counts the working days
    once, then builds one row per employee (missing days, attendance
    percentage) and a summary (employee count, hour totals, mean attended
    days).
  - `aprobar_asistencia` is modelled as `AprobarAsistencia` on the mutable
    `Asistencia` record class. It is specified by the pure function
    `Aprobacion`: only `Pendiente` records move, to `Aprobado` or
    `Rechazado`, and only when the approver is an `administrador` or a
    `talento_humano`. An approval or rejection note is appended to the
    observations.
- **Ecuadorian national-ID check** (`utils.dfy`, module `Utils`).
  - `es_cedula_ecuatoriana_valida` (`EsCedulaEcuatorianaValida`, with its
    doubling loop) strips separators, requires ten digits, a province code
    1..24 and a third digit at most 6, and checks the mod-10 check digit.
  - The same module models the error normaliser `format_error_response`.
- **Input validators** (`security.dfy`, module `Security`):
  - `validate_input_length`;
  - `validate_date_format`;
  - `generate_safe_filename`;
  - `is_valid_id`, including the Python `int()` conversion it relies on.
    That conversion refuses a decimal literal of more than 4300 digits
    (`MaxStrDigits`, CPython's default `sys.int_info` limit). The sign and
    underscores are not counted; leading zeros are.
- **Employee record** (`employee.dfy`, module `Employee`): `from_dict` (its
  required keys, defaults and admission-date parse) and `to_dict`, including
  the derived `nombre_completo`.

Supporting modules:
- `Wrappers`: `Option`, `Result`.
- `Values`: Python's dynamic values (None, bool, int, float, str, list,
  dict) and their truthiness.
- `Digits`: decimal digit strings.
- `Calendar`: Gregorian dates, `datetime.strptime(s, '%Y-%m-%d')` and the
  zero-padded `YYYY-MM-DD` rendering.

Conventions used throughout:
- Dates inside the attendance module are proleptic ordinals
  (`date.toordinal()`). Day 1 is Monday 0001-01-01, so `weekday()` is
  `(d - 1) % 7` and Sunday is 6. The last day a date can hold, 9999-12-31,
  is `MaxOrdinal` (3652059); the day-by-day loops raise OverflowError when
  they step past it, and the model returns `Failure(OverflowError)` there.
- Hours are `real`. A NULL column or a NULL SQL aggregate is an `Option`.
- The clock (`utcnow()`) is the parameter `now`.
- The database tables are inputs: the employees, records and users tables
  appear as a set of ids, a sequence of rows, and maps from ids to records or
  roles.

The bound "missing days are never negative" does not follow from the code.
The attendance table (`app/api/v1/models/asistencia.py`) declares no
uniqueness constraint on (employee, date), and nothing refuses a record
approved on a Sunday. `FaltantesNonNegative` proves the bound under both
conditions, `OnePerDay` and `NoSundayApprovals`. Two counterexample lemmas
show that neither can be dropped: `FaltantesCanBeNegative` (one Sunday
record, one record per day) and `FaltantesNegativeWithDuplicates` (two
records on the same Monday, no Sunday record).

## Model

| member | source | states |
|---|---|---|
| Calendar.DaysInMonth | app/utils/security.py:65-69 | Months have 28 to 31 days; February has 29 exactly in leap years (divisible by 4, centuries only when divisible by 400) |
| Calendar.StrptimeYmd | app/utils/security.py:65-69 | Whatever `strptime(s, '%Y-%m-%d')` accepts is a real calendar date of years 1..9999; one-digit months and days and a space-padded day are read as strptime reads them |
| Calendar.FormatIsoDate | app/api/v1/models/empleado.py:33 | The `%Y-%m-%d` rendering is ten characters with dashes at positions 4 and 7 |
| Calendar.StrptimeOfFormat | app/api/v1/models/empleado.py:33 | Parsing the rendering of a date gives the date back exactly when the date exists, and fails otherwise |
| Security.ValidateInputLengthDefaults | app/utils/security.py:28-45 | With the default bounds a value is accepted iff it is a string of length 1..255; a non-string is refused whatever the bounds |
| Security.ValidateInputLengthWiden | app/utils/security.py:44-45 | A value accepted under some bounds is accepted under any wider bounds |
| Security.ShapeIsFormat | app/utils/security.py:61-62 | A string of the shape four digits, dash, two digits, dash, two digits is exactly the padded rendering of the year, month and day it spells |
| Security.StrptimeRefusesNewline | app/utils/security.py:61-69 | The eleven-character string with a trailing newline that the `$` anchor lets through is refused by strptime |
| Security.ValidateDateFormatMeaning | app/utils/security.py:57-69 | `validate_date_format` accepts a value iff it is a string of the DDDD-DD-DD shape naming a real date, so every accepted string has exactly ten characters |
| Security.ValidateDateFormatOfFormat | app/utils/security.py:47-69 | The padded rendering of any year/month/day triple is accepted iff that date exists |
| Security.ValidateDateFormatLeapDay | app/utils/security.py:65-69 | YYYY-02-29 is accepted iff YYYY is a leap year |
| Security.SubstituteSafe | app/utils/security.py:101 | The substitution keeps the length, leaves only characters of [A-Za-z0-9._-], and leaves a name already made of them unchanged |
| Security.LastSegment | app/utils/security.py:105 | The extension is the suffix after the last dot: it holds no dot, it follows a dot, and it is the whole name when there is no dot |
| Security.LastSegmentAfterDot | app/utils/security.py:105 | For a name ending in a dot followed by dot-free text, the extension is that text |
| Security.SafeFilenameAllSafe | app/utils/security.py:101-106 | Every character of the result is in [A-Za-z0-9._-], in both the short and the truncated case |
| Security.SafeFilenameShort | app/utils/security.py:101-104 | A name of at most 100 characters keeps its length and every character; only disallowed ones become `_` |
| Security.SafeFilenameLong | app/utils/security.py:104-106 | A longer name becomes its first 95 substituted characters, a dot and the text after the last dot (empty without one), 96 + extension length in all |
| Security.SafeFilenameNotBounded | app/utils/security.py:104-106 | The result is not bounded by 100: a 106-character name with a 10-character extension stays 106 characters long |
| Security.SafeFilenameIdempotent | app/utils/security.py:90-108 | Applying the sanitiser to its own output changes nothing |
| Security.DigitRunOfDigits | app/utils/security.py:121 | A non-empty string of decimal digits is a literal `int()` accepts (digits with single underscores between them) |
| Security.ParseRunOfDigits | app/utils/security.py:121 | A bare digit string converts to its value when it has at most 4300 digits, and raises ValueError when it has more |
| Security.ParseUnsigned | app/utils/security.py:121 | With no sign in front, the literal's value is the digit string's value, within the 4300-digit limit |
| Security.SignedRun | app/utils/security.py:121 | A leading `+` or `-` applies to the value of the digits after it, and an error after the sign stays an error |
| Security.ParseSigned | app/utils/security.py:121 | `+digits` converts to their value and `-digits` to its negation, within the 4300-digit limit |
| Security.ParseDigits | app/utils/security.py:121 | `int()` of a decimal digit string is its value when it has at most 4300 digits, and ValueError otherwise (leading zeros count) |
| Security.TrimRightAfter | app/utils/security.py:121 | Stripping the right end of `x + s` depends only on `s` with its trailing whitespace stripped |
| Security.TrimRightLeading | app/utils/security.py:121 | Leading whitespace survives the right strip when text that does not end in whitespace follows it, and vanishes when no text does |
| Security.TrimIgnoresLeadingSpaces | app/utils/security.py:121 | Stripping both ends of a text with any whitespace added in front gives what stripping the text alone gives |
| Security.TrimIgnoresSpaces | app/utils/security.py:121 | Stripping both ends of a text with any whitespace added before and after gives what stripping the text alone gives |
| Security.ParseIgnoresSpaces | app/utils/security.py:121 | `int()` gives the same result, value or error, with any whitespace added before and after the text |
| Security.ParseSignedDigits | app/utils/security.py:121 | `int()` of `+digits` is their value and of `-digits` its negation; more than 4300 digits raise ValueError (the sign is not counted) |
| Security.IsValidIdOfNonStrings | app/utils/security.py:120-124 | An int is a valid id iff it is positive, a bool iff it is True; None, lists and dicts are refused (TypeError) |
| Security.IsValidIdOfFloat | app/utils/security.py:120-124 | A float is a valid id iff it is at least 1, since `int()` truncates toward zero |
| Security.IsValidIdOfDigits | app/utils/security.py:120-124 | A digit string is a valid id iff it has at most 4300 digits and its value is positive ("0", "000" are not) |
| Security.IsValidIdOfPaddedDigits | app/utils/security.py:120-124 | Any whitespace before and after a digit string leaves the verdict: valid iff it has at most 4300 digits and its value is positive |
| Security.IsValidIdOfSignedDigits | app/utils/security.py:120-124 | A leading `+` does not change the verdict (at most 4300 digits and a positive value); a leading `-` always makes it invalid |
| Security.IsValidIdOfLongDigits | app/utils/security.py:120-124 | 4301 ones are not a valid id, because `int()` refuses the literal, while the same text less one digit is |
| Security.OnesPositive | app/utils/security.py:120-124 | A non-empty run of ones is a digit string with a positive value |
| Utils.RemoveCharRemoves | app/utils/__init__.py:114 | Removing a character leaves no occurrence of it, never lengthens the text, and changes nothing when it is absent |
| Utils.RemoveCharKeepsAbsent | app/utils/__init__.py:114 | Removing one character never introduces another that was absent |
| Utils.RemoveCharAppend | app/utils/__init__.py:114 | Removing a character from a concatenation removes it from each part |
| Utils.StripSeparatorsInsert | app/utils/__init__.py:114 | Inserting a `-` or a space anywhere leaves the stripped text unchanged |
| Utils.CedulaIgnoresSeparators | app/utils/__init__.py:114 | Inserting a `-` or a space anywhere never changes whether a cedula is valid |
| Utils.Doubled | app/utils/__init__.py:140-142 | A doubled digit, less 9 when above 9, is still a single digit |
| Utils.DoubledSumTen | app/utils/__init__.py:138-143 | The loop over indices 0, 2, 4, 6, 8 adds up exactly those five doubled digits |
| Utils.SumaImpares | app/utils/__init__.py:138-143 | The loop's sum is the five doubled digits at indices 0, 2, 4, 6 and 8 |
| Utils.CheckTotalChange | app/utils/__init__.py:136-146 | Replacing one of the first nine digits moves the weighted total by between 1 and 9 |
| Utils.VerificadorSeparates | app/utils/__init__.py:145-148 | Two totals that differ by 1 to 9 never share a check digit |
| Utils.Verificador | app/utils/__init__.py:145-148 | The check digit lies in 0..9 and brings the weighted total to a multiple of ten |
| Utils.EsCedulaEcuatorianaValida | app/utils/__init__.py:103-150 | The verdict is the reference predicate: ten digits after stripping, province 1..24, third digit at most 6, matching check digit |
| Utils.IsValidCedulaOfDigits | app/utils/__init__.py:117-150 | On ten plain digits the verdict is exactly the province, third-digit and check-digit tests |
| Utils.CedulaTotalIsMultipleOfTen | app/utils/__init__.py:136-150 | In a valid cedula the weighted total plus the last digit is a multiple of ten |
| Utils.CedulaDetectsSingleDigitError | app/utils/__init__.py:136-150 | Changing any one of the first nine digits of a valid cedula makes it invalid |
| Utils.CedulaExampleValid | app/utils/__init__.py:103-150 | 1710034065 is valid (province 17, total 25, check digit 5) |
| Utils.CedulaExampleWrongCheckDigit | app/utils/__init__.py:136-150 | 1710034064 is invalid: same total, wrong check digit |
| Utils.CedulaExampleWithDash | app/utils/__init__.py:114 | 171003406-5 is valid: the dash is stripped first |
| Utils.FormatErrorResponseShape | app/utils/__init__.py:153-169 | The body is exactly `{'errors': normalised}`, with no other key; a string is normalised to `{'error': [s]}`, a list to `{'error': list}`, and anything else is passed through; the status is 400 unless given |
| Utils.NormalizeErrorsIdempotent | app/utils/__init__.py:164-167 | Normalising an already normalised payload changes nothing |
| Employee.NombreCompleto | app/api/v1/models/empleado.py:30 | The full name is the given names, one space, the surnames, each at its place |
| Employee.NombreCompletoInjective | app/api/v1/models/empleado.py:30 | When the given names hold no space, the full name determines both parts |
| Employee.ToDict | app/api/v1/models/empleado.py:24-36 | The ten keys are all present and `nombre_completo` is the full name |
| Employee.ToDictFechaIngreso | app/api/v1/models/empleado.py:33 | `fecha_ingreso` is a string that strptime('%Y-%m-%d') parses back to the admission date |
| Employee.FirstMissing | app/api/v1/models/empleado.py:41-44 | Nothing is reported iff every required key is present; a reported key is required and absent |
| Employee.FirstMissingIsFirst | app/api/v1/models/empleado.py:41-44 | The key reported is the earliest absent one in checking order |
| Employee.FromDictMissingField | app/api/v1/models/empleado.py:41-44 | `from_dict` fails naming the first absent key of cedula, nombres, apellidos, area, cargo |
| Employee.FromDictCopiesFields | app/api/v1/models/empleado.py:41-52 | Only presence is checked: on every successful call the five required values, None and empty strings included, are copied unchanged; with the keys present and no or a falsy date the call succeeds at now |
| Employee.FromDictDefaults | app/api/v1/models/empleado.py:53-54 | `estado` defaults to True and `unidad_productiva` to JOYGARDENS only when the key is absent |
| Employee.FromDictFechaIngreso | app/api/v1/models/empleado.py:52 | A non-empty date string is parsed to that day at midnight, a string strptime rejects is refused, and an accepted date always exists |
| Employee.FromDictOfToDict | app/api/v1/models/empleado.py:24-55 | `from_dict(to_dict(e))` recovers every column and the admission date at midnight, whatever the clock |
| Attendance.Weekday | app/api/v1/services/asistencia_service.py:238 | `weekday()` lies in 0..6 |
| Attendance.WorkingDays | app/api/v1/services/asistencia_service.py:234-240 | The working-day count never exceeds the number of days in the range, and is 0 for a reversed range |
| Attendance.CountWorkingDays | app/api/v1/services/asistencia_service.py:234-240 | The loop raises OverflowError exactly when the range reaches 9999-12-31; otherwise it counts exactly the non-Sunday days of the range, and 0 for a reversed range |
| Attendance.WorkingDaysIsCount | app/api/v1/services/asistencia_service.py:234-240 | The count is the size of the set of non-Sunday days in the range |
| Attendance.WorkingDaysSplit | app/api/v1/services/asistencia_service.py:234-240 | Counting two adjacent ranges adds up to counting their union |
| Attendance.WeekdayShift | app/api/v1/services/asistencia_service.py:238-240 | Each day forward moves the weekday one place round the week |
| Attendance.WorkingDaysWeek | app/api/v1/services/asistencia_service.py:234-240 | Any seven consecutive days hold exactly six working days |
| Attendance.WorkingDaysWeeks | app/api/v1/services/asistencia_service.py:234-240 | k full weeks hold exactly 6k working days |
| Attendance.Filter | app/api/v1/services/asistencia_service.py:222-226 | The query returns records of the table, all of this employee, dated in the inclusive range and approved, and every such record |
| Attendance.FilterMultiset | app/api/v1/services/asistencia_service.py:222-226 | Each selected record occurs as often as in the table, every other record not at all |
| Attendance.SumHoursNonNegative | app/api/v1/services/asistencia_service.py:229-230 | With no negative stored hours the totals are not negative |
| Attendance.CalcularHorasEmpleado | app/api/v1/services/asistencia_service.py:204-250 | None iff the employee id is unknown; OverflowError iff the employee exists and the range reaches 9999-12-31; otherwise the totals are the sums of the selected records' hours (None skipped), attended days their number, working days the non-Sunday days of the range, missing days the difference |
| Attendance.SummaryWithoutRecords | app/api/v1/services/asistencia_service.py:229-231 | With no selected record both totals are 0 and nothing is attended |
| Attendance.FilterIgnores | app/api/v1/services/asistencia_service.py:222-226 | A record of another employee, outside the range or not approved changes nothing |
| Attendance.FilterAdds | app/api/v1/services/asistencia_service.py:222-231 | A selected record adds one attended day and its hours (None as 0) to the totals |
| Attendance.FilterDatesWithin | app/api/v1/services/asistencia_service.py:222-240 | With no approval on a Sunday, the selected records fall on working days of the range |
| Attendance.FilterDates | app/api/v1/services/asistencia_service.py:222-231 | With at most one record per employee and day, the selected records have distinct dates |
| Attendance.FaltantesNonNegative | app/api/v1/services/asistencia_service.py:242 | Under those two conditions attended days never exceed working days, so missing days are not negative |
| Attendance.FaltantesCanBeNegative | app/api/v1/services/asistencia_service.py:242 | Without the no-Sunday condition nothing guards the subtraction: an approved Sunday record in a one-day period, one record per day, gives -1 missing days |
| Attendance.FaltantesNegativeWithDuplicates | app/api/v1/services/asistencia_service.py:221-242 | Without the one-record-per-day condition: two approved records on the same Monday, none on a Sunday, give -1 missing days |
| Attendance.SqlSumOrZero | app/api/v1/services/asistencia_service.py:273-274 | The SQL SUM of a group, with NULL read as 0, equals the sum that skips None hours |
| Attendance.Porcentaje | app/api/v1/services/asistencia_service.py:345 | The percentage times the working days is attended days times 100; 0 when the period has no working day; within 0..100 when attendance does not exceed the period |
| Attendance.GenerarReporteAsistencias | app/api/v1/services/asistencia_service.py:306-349 | OverflowError iff the period reaches 9999-12-31; otherwise the report's working-day count is the number of non-Sunday days of the period, and the report is built from the query rows with that one count |
| Attendance.ReporteResumen | app/api/v1/services/asistencia_service.py:327-329 | One employee per row; the hour totals are the sums of the rows' hours, NULL read as 0, and 0 with no rows |
| Attendance.ReportePromedio | app/api/v1/services/asistencia_service.py:330 | The mean attended days times the row count is the sum of the rows' attended days, and the mean is 0 with no rows |
| Attendance.ReporteRows | app/api/v1/services/asistencia_service.py:332-348 | Every row copies its query row's id, cedula, names, surnames, area, unit and attended days, shows NULL worked and overtime sums as 0, and uses the period's count: attended plus missing days make it up, the percentage relates them (0 for an empty period); the full name is names, space, surnames |
| Attendance.ReportRowWithoutRecords | app/api/v1/services/asistencia_service.py:341-344 | An employee without approved records in the period has NULL sums, 0 hours and every working day missing |
| Attendance.ReportAgreesWithSummary | app/api/v1/services/asistencia_service.py:341-344 | An employee's report row shows the same hour totals, attended and missing days as the hour summary for that employee and period |
| Attendance.RequestedStatus | app/api/v1/schemas/__init__.py:73 | The payload is valid iff estado is Aprobado or Rechazado, never Pendiente |
| Attendance.Asistencia.constructor | app/api/v1/models/asistencia.py:5-15 | A record object holds exactly the given column values |
| Attendance.AprobarAsistencia | app/api/v1/services/asistencia_service.py:150-202 | The record is updated in place exactly as the decision function says, and left untouched on every error |
| Attendance.AprobacionSucceeds | app/api/v1/services/asistencia_service.py:162-183 | Approval succeeds iff the payload is valid, the record exists and is pending, and the approver exists as administrador or talento_humano |
| Attendance.AprobacionTransition | app/api/v1/services/asistencia_service.py:172-188 | The only transitions are Pendiente to the requested Aprobado or Rechazado, recorded with the approver; date, times and hours keep their values |
| Attendance.AprobacionIsFinal | app/api/v1/services/asistencia_service.py:172-174 | A decided record is final: any later approval of it fails as already processed once the payload is valid |
| Attendance.AprobacionRecordFirst | app/api/v1/services/asistencia_service.py:168-183 | A missing or processed record is reported before anything about the approver is checked |
| Attendance.ApprovalNoteAppends | app/api/v1/services/asistencia_service.py:190-195 | Notes only append: with no note (None or empty), nothing changes; without prior observations (None or empty) the new text is exactly the status prefix (`[Aprobación] ` or `[Rechazo] `) plus the note; otherwise it is the old observations, `; `, the prefix and the note, so the old text stays as a prefix and the prefixed note ends it |

## Left out

- Per-shift hour calculation (`registrar_entrada`, `registrar_salida`, `calcular_horas`) is not part of this model. The attendance model file declares only columns, so each record's worked and overtime hours are given, possibly NULL, inputs.
- Query building, the outer join and grouping, pagination, and the `db.session` commit and rollback paths (including the `database` error of `aprobar_asistencia`). The report takes the grouped rows as input; `JoinRow` states what one row holds.
- `round(..., 2)` on hour totals, means and percentages. Every figure is the exact real before rounding.
- Attendance.CalcularHorasEmpleado: the totals are stated before rounding to two places, because rounding is floating-point behaviour.
- Attendance.GenerarReporteAsistencias: the dates of `periodo` are kept as day numbers rather than rendered as text. Their rendering is the one `FormatIsoDate` states.
- The clock: `utcnow()` becomes the parameter `now`, and nothing is claimed about the approval timestamp beyond its being recorded.
- The web layer, authentication and role claims of the tokens. The controllers' check that the start date is not after the end date is not needed: a reversed range gives 0 working days and no records.
- Payload validation by the schema library. Only the `estado` choice is modelled, and the approval payload arrives already typed (no unknown keys, no non-string note). The error messages are reduced to their kind.
- The estado column is a free string in the database. The model uses the three values the schemas allow.
- `sanitize_input`, `sanitize_sql_params`, the date/time formatting helpers and pagination info depend on foreign libraries or only format text.
- Unicode: only ASCII digits and ASCII whitespace are modelled. Python's `\d`, `isdigit()` and `int()` also accept other Unicode digits and spaces.
- Security.IsValidId: a float is a real number here, so the OverflowError and ValueError that `int()` raises on infinities and NaN are not modelled.
- Employee.ToDict: a year below 1000 is rendered with four digits, whereas glibc's `strftime('%Y')` leaves it unpadded.
- Employee.FromDict: the type and length limits of the columns and the uniqueness of `cedula` are enforced by the database, not by `from_dict`, and are not modelled.
