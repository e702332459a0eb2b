# Patient records, departments and phone calls — a Dafny model

This project models the three in-memory components of the `Programming2`
C# exercises and proves what their code and unit tests promise:

* **Patient** (PatientLibraryTask15): a class with a fixed policy number and
  public, mutable name, surname, service type, price, arrival and discharge
  fields. `DatesCheck` sets arrival and discharge both at once or not at all,
  with an `ArgumentException` when the discharge is not strictly after the
  arrival; since callers may also assign the two fields directly, nothing
  keeps the discharge after the arrival. `CompareTo` orders by surname, then name, and puts every
  patient after `null`. `GetInfo` renders a three-line info block; the three
  nested subclasses (`InpatientPatient`, `DayPatient`, `AmbulatoryPatient`)
  keep lines 0 and 2 and append their own properties to line 1. The
  subclasses are a `Kind` tag carrying the subclass's properties; the
  virtual `GetInfo` dispatches on it.
* **Patient, earlier revision** (PatientLibraryTask13): the same fields and
  info block, with the date check written as
  `(discharge - arrival).TotalDays <= 0`; it is proved to accept the same
  pairs as the later `discharge <= arrival`.
* **Department** (PatientLibraryTask15): built once from a sequence of
  patients, appending each object the first time it appears. `List.Contains`
  falls back on `Patient`'s inherited reference equality, so the model
  compares object references. The stored list is the input with later
  repeats removed (`Distinct`), proved duplicate-free, holding every input
  patient, in first-occurrence order, with one entry per distinct object.
* **PhoneCall** (Task16): a value of a time in seconds and a rate, built by a
  validating constructor; `Equals` throws on `null` and on other types;
  `+` requires equal rates and adds the times; `*` requires a positive
  multiplier and scales the rate. Exceptions are `Failure` values.

Supporting modules: `Results` (Option/Result/Outcome), `Text` (32-bit
integers and wrap-around, `int.ToString()`, zero-padded fields, their
parsers, ordinal string comparison) and `DateTimes` (`System.DateTime` to the
second: Gregorian fields, ticks, comparison, `TimeSpan.TotalDays`,
`dd.MM.yyyy` / `HH:mm:ss`).

Every rendering has a parser beside it and a round-trip lemma: the info block
of every kind of patient gives back its policy number, service type, the
date parts (`dd.MM.yyyy`) of arrival and discharge, price, subclass and
subclass properties — for a day patient only the times of day (`HH:mm:ss`)
of its two times (`Patients.InfoRoundTrip`).
Name and surname are not recoverable in general, since either may contain
the caption that follows it.

The model follows the code: the service-type labels are the code's Russian strings ("Страховое",
"Платное") and all captions are the code's; `CompareTo(null)` returns exactly 1.

Assumptions: the `ServiceType` enum source is not part of this model; it is
taken to be `{Insurance, Paid}` in that order, so an unassigned field holds
`Insurance`. An unassigned `DateTime` is `DateTime.MinValue`
(01.01.0001 00:00:00).

## Model

| member | source | states |
|---|---|---|
| `Text.Wrap32` | Task16/PhoneCall/PhoneCall.cs:48 | unchecked `int` addition: the identity inside the 32-bit range, minus 2^32 just above it, plus 2^32 just below it |
| `Text.IntToString` | PatientLibraryTask15/PatientLibrary/Patient.cs:50-52 | `int.ToString()` is non-empty, has no space, starts with `-` exactly for negative numbers, and the rest is decimal digits without a leading zero |
| `Text.IntToStringRoundTrip` | PatientLibraryTask15/PatientLibrary/Patient.cs:50-52 | every integer rendered in an info line is read back exactly by `ParseInt` |
| `Text.Xor32` | Task16/PhoneCall/PhoneCall.cs:42 | C# `^` on `int`: the two's-complement pattern of the result is the bitwise exclusive or of the operands' 32-bit patterns |
| `Text.Xor32Commutative` | Task16/PhoneCall/PhoneCall.cs:42 | `a ^ b == b ^ a` |
| `Text.Xor32Zero` | Task16/PhoneCall/PhoneCall.cs:42 | `a ^ 0 == a` |
| `Text.Xor32Self` | Task16/PhoneCall/PhoneCall.cs:42 | `a ^ a == 0` |
| `Text.PaddedRoundTrip` | PatientLibraryTask15/PatientLibrary/Patient.cs:46-47 | a zero-padded fixed-width field reads back as the number written |
| `Text.CompareStrings` | PatientLibraryTask15/PatientLibrary/Patient.cs:22-26 | ordinal stand-in for `string.CompareTo`: -1, 0 or 1 by character code |
| `Text.CompareStringsMeaning` | PatientLibraryTask15/PatientLibrary/Patient.cs:22-26 | the string comparison is 0 exactly on equal strings, negative exactly on lexicographically smaller ones, positive on larger ones |
| `Text.CompareStringsAntisymmetric` | PatientLibraryTask15/PatientLibrary/Patient.cs:22-26 | swapping the strings flips the sign |
| `Text.CompareStringsTransitive` | PatientLibraryTask15/PatientLibrary/Patient.cs:22-26 | the string comparison is transitive |
| `DateTimes.Ticks` | PatientLibraryTask15/PatientLibrary/Patient.cs:30 | `DateTime.Ticks`: the .NET day number times the ticks per day, plus the second of the day times 10^7; a whole number of seconds within the range of years 1 to 9999 |
| `DateTimes.TicksAreLexicographic` | PatientLibraryTask15/PatientLibrary/Patient.cs:30 | on valid dates the .NET tick count orders dates field by field (year, month, day, hour, minute, second), and equal ticks mean equal dates |
| `DateTimes.Before` | PatientLibraryTask15/PatientLibrary/Patient.cs:30 | C# `a < b` compares ticks and holds exactly when `a` comes first in calendar order |
| `DateTimes.AtOrBefore` | PatientLibraryTask15/PatientLibrary/Patient.cs:30 | C# `discharge <= arrival` holds exactly when the arrival does not come before the discharge in calendar order |
| `DateTimes.Subtract` | PatientLibraryTask13/PatientLibrary/Patient.cs:21 | `later - earlier` is zero exactly for equal dates, positive exactly when `earlier` comes first, negative exactly when `later` comes first |
| `DateTimes.TotalDays` | PatientLibraryTask13/PatientLibrary/Patient.cs:21 | `TotalDays` times the ticks per day is the span's tick count, so it is non-positive exactly when the span is |
| `DateTimes.TotalDaysNonPositive` | PatientLibraryTask13/PatientLibrary/Patient.cs:21 | `(later - earlier).TotalDays <= 0` exactly when `later <= earlier` |
| `DateTimes.FormatDate` | PatientLibraryTask15/PatientLibrary/Patient.cs:46-47 | `ToString("dd.MM.yyyy")` is ten characters: two digits, `.`, two digits, `.`, four digits |
| `DateTimes.FormatTime` | PatientLibraryTask15/PatientLibrary/Patient.cs:92-93 | `ToString("HH:mm:ss")` is eight characters: two digits, `:`, two digits, `:`, two digits |
| `DateTimes.FormatDateRoundTrip` | PatientLibraryTask15/PatientLibrary/Patient.cs:46-47 | `dd.MM.yyyy` determines the date part: parsing it gives back year, month and day |
| `DateTimes.FormatTimeRoundTrip` | PatientLibraryTask15/PatientLibrary/Patient.cs:92-93 | `HH:mm:ss` determines the time of day |
| `Patients.ServiceLabel` | PatientLibraryTask15/PatientLibrary/Patient.cs:40-44 | "Страховое" exactly for `Insurance`, "Платное" exactly for the other type |
| `Patients.BaseInfo` | PatientLibraryTask15/PatientLibrary/Patient.cs:49-53 | the base info block has exactly three lines |
| `Patients.Info` | PatientLibraryTask15/PatientLibrary/Patient.cs:66-123 | every kind's block has three lines; lines 0 and 2 are the base lines; base line 1 is a prefix of line 1; the base class returns the base block |
| `Patients.ServiceLineRoundTrip` | PatientLibraryTask15/PatientLibrary/Patient.cs:51 | line 1 gives back the service type, both dates, and exactly the suffix the subclass appended |
| `Patients.KindSuffix` | PatientLibraryTask15/PatientLibrary/Patient.cs:66-123 | the base class appends nothing; each subclass appends a non-empty text starting with its own caption (department, arrival time, doctor) |
| `Patients.KindSuffixRoundTrip` | PatientLibraryTask15/PatientLibrary/Patient.cs:66-123 | the appended suffix identifies the subclass and gives back its properties (department and room; both times of day; doctor's name) |
| `Patients.PriceLineRoundTrip` | PatientLibraryTask15/PatientLibrary/Patient.cs:52 | line 2 gives back the price |
| `Patients.PolicyTokenRoundTrip` | PatientLibraryTask15/PatientLibrary/Patient.cs:50 | the last token of line 0 is the policy number |
| `Patients.InfoRoundTrip` | PatientLibraryTask15/PatientLibrary/Patient.cs:38-54 | the info block of any kind of patient determines policy number, service type, the date parts of arrival and discharge, price, subclass and subclass properties (for a day patient, the times of day of its two times) |
| `Patients.Patient.constructor` | PatientLibraryTask15/PatientLibrary/Patient.cs:12-17 | stores name, surname and policy number; other fields hold their defaults |
| `Patients.Patient.InpatientPatient` | PatientLibraryTask15/PatientLibrary/Patient.cs:61-65 | stores department and room number verbatim |
| `Patients.Patient.DayPatient` | PatientLibraryTask15/PatientLibrary/Patient.cs:82-87 | stores both times verbatim, without checking their order |
| `Patients.Patient.AmbulatoryPatient` | PatientLibraryTask15/PatientLibrary/Patient.cs:108-112 | stores the doctor's name verbatim |
| `Patients.Patient.CompareTo` | PatientLibraryTask15/PatientLibrary/Patient.cs:18-27 | result in -1..1, exactly 1 against null |
| `Patients.Patient.DatesCheck` | PatientLibraryTask15/PatientLibrary/Patient.cs:28-35 | fails with the fixed message exactly when `discharge <= arrival`, then both dates unchanged; otherwise both dates set; name, surname, type, price and subclass untouched (the policy number is a constant) |
| `Patients.Patient.BaseGetInfo` | PatientLibraryTask15/PatientLibrary/Patient.cs:38-54 | a fresh three-slot array holding the base block of the current fields |
| `Patients.Patient.GetInfo` | PatientLibraryTask15/PatientLibrary/Patient.cs:66-123 | a fresh array holding the block of the object's own class |
| `Patients.CompareToMeaning` | PatientLibraryTask15/PatientLibrary/Patient.cs:18-27 | `CompareTo` is 0 exactly on equal (surname, name), negative exactly when ordered before by surname then name, positive when ordered after |
| `Patients.CompareToReflexive` | PatientLibraryTask15/PatientLibrary/Patient.cs:22-26 | `p.CompareTo(p) == 0` |
| `Patients.CompareToAntisymmetric` | PatientLibraryTask15/PatientLibrary/Patient.cs:22-26 | `p.CompareTo(q) == -q.CompareTo(p)` |
| `Patients.CompareToTransitive` | PatientLibraryTask15/PatientLibrary/Patient.cs:22-26 | `CompareTo` is a transitive order |
| `Patients.TestedOrderings` | Lobachev_Programming-Task15-2/PatientLibraryTask15-2/PatientLibrary.UnitTests/PatientUnitTests.cs:35-38 | john < tom, tom > john, tom == tom, and 1 against null |
| `Departments.Distinct` | PatientLibraryTask15/PatientLibrary/Department.cs:21-23 | the deduplicated list is no longer than the input and keeps the input's first patient first |
| `Departments.DistinctSameElements` | PatientLibraryTask15/PatientLibrary/Department.cs:21-23 | the stored list holds exactly the patients of the input |
| `Departments.DistinctHasNoDuplicates` | PatientLibraryTask15/PatientLibrary/Department.cs:21-23 | no object is stored twice |
| `Departments.DistinctFirstOccurrenceOrder` | PatientLibraryTask15/PatientLibrary/Department.cs:21-23 | stored patients come in the order of their first occurrence in the input |
| `Departments.DistinctOfDistinct` | PatientLibraryTask15/PatientLibrary/Department.cs:21-23 | an input without repeats is stored unchanged (so deduplicating twice changes nothing) |
| `Departments.DistinctCount` | PatientLibraryTask15/PatientLibrary/Department.cs:13 | the count is the number of distinct objects in the input, at most the input's length |
| `Departments.DistinctByIdentity` | PatientLibraryTask15/PatientLibrary/Department.cs:22 | two different objects are both kept, a repeated one dropped |
| `Departments.RepeatedPatientDropped` | Lobachev_Programming-Task15-2/PatientLibraryTask15-2/PatientLibrary.UnitTests/PatientUnitTests.cs:192-224 | `[peter, kate, phil, john, tom, peter]` gives the first five, in order, count 5 |
| `Departments.Department.constructor` | PatientLibraryTask15/PatientLibrary/Department.cs:16-24 | keeps the name; the loop stores `Distinct(patients)`, duplicate-free (`Valid`), with every input patient and the distinct count |
| `Departments.Department.PatientNumber` | PatientLibraryTask15/PatientLibrary/Department.cs:13 | the count of stored patients is the number of different objects stored |
| `Departments.Department.GetEnumerator` | PatientLibraryTask15/PatientLibrary/Department.cs:26 | yields the stored list in order and changes nothing |
| `PhoneCalls.Create` | Task16/PhoneCall/PhoneCall.cs:17-26 | succeeds exactly when time > 0 and rate > 0, storing both; the time error takes precedence over the rate error |
| `PhoneCalls.Equals` | Task16/PhoneCall/PhoneCall.cs:31-41 | null throws `ArgumentNullException`, a non-`PhoneCall` throws `ArgumentException`, a `PhoneCall` gives true exactly when both fields match |
| `PhoneCalls.EqualsIsValueEquality` | Task16/PhoneCall/PhoneCall.cs:39-40 | on a boxed call, `Equals` is value equality |
| `PhoneCalls.EqualsReflexive` | Task16/PhoneCall/PhoneCall.cs:39-40 | every call equals itself |
| `PhoneCalls.EqualsSymmetric` | Task16/PhoneCall/PhoneCall.cs:39-40 | `a.Equals(b)` is `b.Equals(a)` |
| `PhoneCalls.EqualsTransitive` | Task16/PhoneCall/PhoneCall.cs:39-40 | `Equals` is transitive |
| `PhoneCalls.HashCode` | Task16/PhoneCall/PhoneCall.cs:42 | `Time.GetHashCode() ^ Rate.GetHashCode()`, symmetric in the two hashes: the time itself when the rate hashes to 0, and 0 when the rate hashes to the time |
| `PhoneCalls.EqualCallsHaveEqualHashes` | Task16/PhoneCall/PhoneCall.cs:42 | equal calls have equal hash codes |
| `PhoneCalls.Add` | Task16/PhoneCall/PhoneCall.cs:43-49 | fails with `InvalidOperationException` exactly when the rates differ, otherwise constructs a call of the wrapped sum of times |
| `PhoneCalls.AddConstructed` | Task16/PhoneCall/PhoneCall.cs:45-48 | for constructed calls of one rate: succeeds exactly when the sum fits in an `int`, the result has the summed time and that rate; an overflowing sum is rejected by the constructor |
| `PhoneCalls.AddCommutative` | Task16/PhoneCall/PhoneCall.cs:43-49 | `a + b == b + a`, failures included |
| `PhoneCalls.AddAssociative` | Task16/PhoneCall/PhoneCall.cs:43-49 | `(a + b) + c == a + (b + c)` where both are defined |
| `PhoneCalls.Multiply` | Task16/PhoneCall/PhoneCall.cs:50-56 | fails exactly for a non-positive multiplier, otherwise constructs a call of the same time and scaled rate |
| `PhoneCalls.MultiplyConstructed` | Task16/PhoneCall/PhoneCall.cs:52-55 | a constructed call times a positive multiplier always succeeds, time kept, rate scaled |
| `PhoneCalls.MultiplyCompose` | Task16/PhoneCall/PhoneCall.cs:50-56 | with rates as exact numbers, `(c * m) * n == c * (m * n)` |
| `PhoneCalls.MultiplyDistributesOverAdd` | Task16/PhoneCall/PhoneCall.cs:43-56 | `(a + b) * m == a * m + b * m` |
| `PhoneCalls.TestedCases` | Task16/PhoneCall.UnitTests/PhoneCall.UnitTests.cs:7-101 | the unit tests' constructor, equality (all three cases), addition and multiplication cases |
| `PatientsTask13.DatesGuardsAgree` | PatientLibraryTask13/PatientLibrary/Patient.cs:21 | the `TotalDays <= 0` guard rejects exactly what the later `discharge <= arrival` rejects: a discharge not after the arrival in calendar order |
| `PatientsTask13.Patient.constructor` | PatientLibraryTask13/PatientLibrary/Patient.cs:13-18 | stores name, surname and policy number; other fields hold their defaults |
| `PatientsTask13.Patient.DatesCheck` | PatientLibraryTask13/PatientLibrary/Patient.cs:19-26 | fails exactly when `TotalDays <= 0`, i.e. unless arrival is before discharge, leaving both dates; otherwise sets both; other fields untouched |
| `PatientsTask13.Patient.GetInfo` | PatientLibraryTask13/PatientLibrary/Patient.cs:28-44 | a fresh three-slot array holding the same block as the later base class |

## Left out

- Culture-sensitive collation of `string.CompareTo`: replaced by ordinal comparison of characters returning -1, 0 or 1; the Latin and Cyrillic names of the unit tests order the same way under both.
- `PhoneCall.Cost`: float rounding of `(Time / 60f) * Rate`, floating-point numerics.
- `PhoneCall.ToString`: locale-dependent formatting of a `double`.
- PhoneCalls.MultiplyCompose: holds for exact rates only; with `double` rates the two groupings can round differently (in IEEE 754 doubles 0.1 * 0.2 * 0.3 is 0.006000000000000001 while 0.1 * (0.2 * 0.3) is 0.006), and `Equals` then tells them apart.
- `Rate` and the multiplier are exact reals: NaN, infinities, rounding of `Rate * multiplier` and underflow to 0 are not modelled.
- `PhoneCalls.HashCode`: `double.GetHashCode` is a parameter, since its bit pattern is outside the model; `int.GetHashCode` and the XOR are exact.
- `PhoneCall` is a struct with public fields: `default(PhoneCall)` and direct field assignment by callers can bypass the constructor; the model only builds calls through `Create`.
- The `time % 1 != 0` test of the constructor is modelled but can never be true on an `int`.
- DateTimes.TotalDays: an exact quotient where .NET computes a `double`, so the product with the ticks per day can differ from the tick count by rounding; only its sign is used, at PatientLibraryTask13/PatientLibrary/Patient.cs:21, and the sign is the same.
- `DateTime`: whole seconds only (no sub-second ticks), no `Kind`. Formatting assumes a culture with the Gregorian calendar, `:` as time separator and `-` as minus sign: `ToString("dd.MM.yyyy")`, `ToString("HH:mm:ss")` and the interpolated integers follow the current culture in .NET.
- Null is not modelled: null names, surnames, department names and doctor names (interpolation renders them as empty text), a null `patients` argument, and null elements of `patients` (the loop keeps one null, which a sequence of patient objects cannot hold).
- `Patients.Patient.kind`: a field, so nothing stops a caller from replacing the subclass tag itself; the C# class of an object cannot change.
- `PolicyNumberComparer`, used by the unit tests, is not part of this model.
- The non-generic `IEnumerable.GetEnumerator` and the enumerator object itself: enumeration is the ordered sequence it yields.
