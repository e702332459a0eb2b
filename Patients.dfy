/**
  The patient record of PatientLibraryTask15: the `Patient` class, its three
  nested subclasses (told apart here by a `Kind` tag that carries the
  subclass's own properties), the ordering by surname and name, the validated
  date setter and the three-line info block.
*/
module Patients {
  import opened Results
  import opened Text
  import opened DateTimes

  /** `ServiceType`; `Insurance` is taken to be its first member, the value of an unassigned field. */
  datatype ServiceType = Insurance | Paid

  /** Which class a patient object has, with the properties that class adds. */
  datatype Kind =
    | General
    | Inpatient(department: string, roomNumber: int32)
    | Day(arrivalDateTime: DateTime, leaveDateTime: DateTime)
    | Ambulatory(doctorName: string)

  /** The fields the base `GetInfo` reads. */
  datatype Record = Record(
    name: string, surname: string, policyNumber: int32, serviceType: ServiceType,
    arrival: DateTime, discharge: DateTime, price: int32)

  /** Message of the `ArgumentException` thrown by `DatesCheck`. */
  const DatesMessage := "Дата поступления должна быть раньше даты выписки."

  // ----------------------------------------------------------- info block

  const NameLabel := "Имя: "
  const SurnameLabel := ", Фамилия: "
  const PolicyLabel := ", Номер полиса: "
  const ServiceTypeLabel := "Тип обслуживания: "
  const ArrivalLabel := ", Дата поступления: "
  const DischargeLabel := ", Дата выписки: "
  const PriceLabel := "Стоимость лечения: "
  const CurrencySuffix := " руб."
  const InsuranceText := "Страховое"
  const PaidText := "Платное"
  const DepartmentLabel := ", Название отделения: "
  const RoomLabel := ", Номер палаты: "
  const ArrivalTimeLabel := ", Точное время прихода: "
  const LeaveTimeLabel := ", Точное время ухода: "
  const DoctorLabel := ", ФИО лечащего врача: "

  /** The service-type label of line 1. */
  function ServiceLabel(t: ServiceType): (text: string)
    ensures text == InsuranceText <==> t == Insurance
    ensures text == PaidText <==> t == Paid
  {
    assert InsuranceText[0] != PaidText[0];
    match t
    case Insurance => InsuranceText
    case Paid => PaidText
  }

  /** The base class's `GetInfo`. */
  function BaseInfo(r: Record): (lines: seq<string>)
    ensures |lines| == 3
  {
    [ NameLabel + r.name + SurnameLabel + r.surname + PolicyLabel + IntToString(r.policyNumber as int),
      ServiceTypeLabel + ServiceLabel(r.serviceType) + ArrivalLabel + FormatDate(r.arrival)
        + DischargeLabel + FormatDate(r.discharge),
      PriceLabel + IntToString(r.price as int) + CurrencySuffix ]
  }

  /** What a subclass appends to line 1 of the base block. */
  function KindSuffix(k: Kind): (suffix: string)
    ensures suffix == [] <==> k.General?
    ensures k.Inpatient? ==> DepartmentLabel <= suffix
    ensures k.Day? ==> ArrivalTimeLabel <= suffix
    ensures k.Ambulatory? ==> DoctorLabel <= suffix
  {
    match k
    case General => ""
    case Inpatient(department, roomNumber) =>
      DepartmentLabel + department + RoomLabel + IntToString(roomNumber as int)
    case Day(arrivalDateTime, leaveDateTime) =>
      ArrivalTimeLabel + FormatTime(arrivalDateTime) + LeaveTimeLabel + FormatTime(leaveDateTime)
    case Ambulatory(doctorName) =>
      DoctorLabel + doctorName
  }

  /**
    `GetInfo` of an object of kind `k`: the base block for `Patient`, and for
    each subclass the base lines 0 and 2 unchanged and base line 1 extended.
  */
  function Info(r: Record, k: Kind): (lines: seq<string>)
    ensures |lines| == 3
    ensures lines[0] == BaseInfo(r)[0] && lines[2] == BaseInfo(r)[2]
    ensures BaseInfo(r)[1] <= lines[1]
    ensures k.General? ==> lines == BaseInfo(r)
  {
    var b := BaseInfo(r);
    if k.General? then b else [b[0], b[1] + KindSuffix(k), b[2]]
  }

  // ------------------------------------------- reading an info block back

  /** What an info block tells about the subclass properties. */
  datatype KindView =
    | GeneralView
    | InpatientView(department: string, roomNumber: int)
    | DayView(arrivalTime: TimeOfDay, leaveTime: TimeOfDay)
    | AmbulatoryView(doctorName: string)

  function ViewOfKind(k: Kind): KindView
  {
    match k
    case General => GeneralView
    case Inpatient(department, roomNumber) => InpatientView(department, roomNumber as int)
    case Day(a, l) => DayView(TimeOf(a), TimeOf(l))
    case Ambulatory(doctorName) => AmbulatoryView(doctorName)
  }

  /** Everything an info block determines: all fields but the (ambiguous) name and surname. */
  datatype InfoView = InfoView(
    policyNumber: int, serviceType: ServiceType, arrival: Date, discharge: Date,
    price: int, kind: KindView)

  datatype ServiceLine = ServiceLine(serviceType: ServiceType, arrival: Date, discharge: Date, rest: string)

  function ParseServiceLabel(s: string): Option<(ServiceType, string)>
  {
    match StripPrefix(s, InsuranceText)
    case Some(rest) => Some((Insurance, rest))
    case None =>
      match StripPrefix(s, PaidText)
      case Some(rest) => Some((Paid, rest))
      case None => None
  }

  /** Reads a dd.MM.yyyy field at the start of `s`, after the literal `caption`. */
  function ParseLabelledDate(s: string, caption: string): Option<(Date, string)>
  {
    match StripPrefix(s, caption)
    case None => None
    case Some(t) =>
      if |t| < 10 then None
      else
        match ParseDate(t[..10])
        case None => None
        case Some(d) => Some((d, t[10..]))
  }

  /** Reads line 1 up to the end of the discharge date; `rest` is what a subclass appended. */
  function ParseServiceLine(line: string): Option<ServiceLine>
  {
    match StripPrefix(line, ServiceTypeLabel)
    case None => None
    case Some(s1) =>
      match ParseServiceLabel(s1)
      case None => None
      case Some((t, s2)) =>
        match ParseLabelledDate(s2, ArrivalLabel)
        case None => None
        case Some((a, s3)) =>
          match ParseLabelledDate(s3, DischargeLabel)
          case None => None
          case Some((d, rest)) => Some(ServiceLine(t, a, d, rest))
  }

  function ParseInpatientSuffix(s: string): Option<KindView>
  {
    var roomText := AfterLastSpace(s);
    match ParseInt(roomText)
    case None => None
    case Some(room) =>
      match StripSuffix(s, RoomLabel + roomText)
      case None => None
      case Some(department) => Some(InpatientView(department, room))
  }

  function ParseDaySuffix(s: string): Option<KindView>
  {
    if |s| < 8 then None
    else
      match ParseTime(s[..8])
      case None => None
      case Some(a) =>
        match StripPrefix(s[8..], LeaveTimeLabel)
        case None => None
        case Some(t) =>
          match ParseTime(t)
          case None => None
          case Some(l) => Some(DayView(a, l))
  }

  /** Reads what a subclass appended to line 1. */
  function ParseKindSuffix(rest: string): Option<KindView>
  {
    if rest == [] then Some(GeneralView)
    else match StripPrefix(rest, DepartmentLabel)
    case Some(s) => ParseInpatientSuffix(s)
    case None =>
      match StripPrefix(rest, ArrivalTimeLabel)
      case Some(s) => ParseDaySuffix(s)
      case None =>
        match StripPrefix(rest, DoctorLabel)
        case Some(s) => Some(AmbulatoryView(s))
        case None => None
  }

  function ParsePriceLine(line: string): Option<int>
  {
    match StripPrefix(line, PriceLabel)
    case None => None
    case Some(s) =>
      match StripSuffix(s, CurrencySuffix)
      case None => None
      case Some(p) => ParseInt(p)
  }

  /** Reads a whole info block back; line 0 yields the policy number, its last token. */
  function ParseInfo(lines: seq<string>): Option<InfoView>
  {
    if |lines| != 3 then None
    else
      match ParseInt(AfterLastSpace(lines[0]))
      case None => None
      case Some(policy) =>
        match ParseServiceLine(lines[1])
        case None => None
        case Some(ServiceLine(t, a, d, rest)) =>
          match ParseKindSuffix(rest)
          case None => None
          case Some(kv) =>
            match ParsePriceLine(lines[2])
            case None => None
            case Some(price) => Some(InfoView(policy, t, a, d, price, kv))
  }

  lemma ServiceLabelRoundTrip(t: ServiceType, rest: string)
    ensures ParseServiceLabel(ServiceLabel(t) + rest) == Some((t, rest))
  {
    StripPrefixOfConcat(ServiceLabel(t), rest);
    if t == Paid {
      assert (PaidText + rest)[0] != InsuranceText[0];
    }
  }

  lemma LabelledDateRoundTrip(caption: string, d: DateTime, rest: string)
    ensures ParseLabelledDate(caption + (FormatDate(d) + rest), caption) == Some((DateOf(d), rest))
  {
    var f := FormatDate(d);
    StripPrefixOfConcat(caption, f + rest);
    assert (f + rest)[..10] == f;
    assert (f + rest)[10..] == rest;
    FormatDateRoundTrip(d);
  }

  /** Line 1 of any info block, grouped from the right. */
  lemma ServiceLineShape(r: Record, k: Kind)
    ensures Info(r, k)[1] == ServiceTypeLabel + (ServiceLabel(r.serviceType) + (ArrivalLabel
      + (FormatDate(r.arrival) + (DischargeLabel + (FormatDate(r.discharge) + KindSuffix(k))))))
  {
    var t, fa, fd, suffix := ServiceLabel(r.serviceType), FormatDate(r.arrival), FormatDate(r.discharge), KindSuffix(k);
    var b1 := BaseInfo(r)[1];
    assert b1 == ServiceTypeLabel + t + ArrivalLabel + fa + DischargeLabel + fd;
    assert Info(r, k)[1] == b1 + suffix by {
      if k.General? {
        assert suffix == [];
      }
    }
    Concat7(ServiceTypeLabel, t, ArrivalLabel, fa, DischargeLabel, fd, suffix);
  }

  lemma Concat7(a: string, b: string, c: string, d: string, e: string, f: string, g: string)
    ensures a + b + c + d + e + f + g == a + (b + (c + (d + (e + (f + g)))))
  {
  }

  /** Line 1 gives back the service type, both dates and exactly the subclass's suffix. */
  lemma ServiceLineRoundTrip(r: Record, k: Kind)
    ensures ParseServiceLine(Info(r, k)[1])
         == Some(ServiceLine(r.serviceType, DateOf(r.arrival), DateOf(r.discharge), KindSuffix(k)))
  {
    var t, fa, fd, suffix := ServiceLabel(r.serviceType), FormatDate(r.arrival), FormatDate(r.discharge), KindSuffix(k);
    var s3 := DischargeLabel + (fd + suffix);
    var s2 := ArrivalLabel + (fa + s3);
    var s1 := t + s2;
    ServiceLineShape(r, k);
    StripPrefixOfConcat(ServiceTypeLabel, s1);
    ServiceLabelRoundTrip(r.serviceType, s2);
    LabelledDateRoundTrip(ArrivalLabel, r.arrival, s3);
    LabelledDateRoundTrip(DischargeLabel, r.discharge, suffix);
  }

  /** The room number is the token after the last space of the inpatient suffix. */
  lemma RoomToken(department: string, roomText: string)
    requires ' ' !in roomText
    ensures AfterLastSpace(department + RoomLabel + roomText) == roomText
  {
    assert department + RoomLabel + roomText == (department + ", Номер палаты:") + " " + roomText;
    AfterLastSpaceOfToken(department + ", Номер палаты:", roomText);
  }

  lemma InpatientSuffixOfToken(department: string, roomText: string, roomNumber: int)
    requires ' ' !in roomText && ParseInt(roomText) == Some(roomNumber)
    ensures ParseInpatientSuffix(department + RoomLabel + roomText) == Some(InpatientView(department, roomNumber))
  {
    RoomToken(department, roomText);
    assert department + RoomLabel + roomText == department + (RoomLabel + roomText);
    StripSuffixOfConcat(department, RoomLabel + roomText);
  }

  lemma InpatientSuffixRoundTrip(department: string, roomNumber: int)
    ensures ParseInpatientSuffix(department + RoomLabel + IntToString(roomNumber))
         == Some(InpatientView(department, roomNumber))
  {
    IntToStringRoundTrip(roomNumber);
    InpatientSuffixOfToken(department, IntToString(roomNumber), roomNumber);
  }

  lemma DaySuffixRoundTrip(a: DateTime, l: DateTime)
    ensures ParseDaySuffix(FormatTime(a) + LeaveTimeLabel + FormatTime(l)) == Some(DayView(TimeOf(a), TimeOf(l)))
  {
    var fa, fl := FormatTime(a), FormatTime(l);
    var s := fa + LeaveTimeLabel + fl;
    assert s[..8] == fa;
    assert s[8..] == LeaveTimeLabel + fl;
    StripPrefixOfConcat(LeaveTimeLabel, fl);
    FormatTimeRoundTrip(a);
    FormatTimeRoundTrip(l);
  }

  /** A string that starts with `p` does not start with a `q` that differs from `p` at position `i`. */
  lemma PrefixMismatch(p: string, q: string, rest: string, i: nat)
    requires i < |p| && i < |q| && p[i] != q[i]
    ensures StripPrefix(p + rest, q) == None
  {
    assert (p + rest)[i] == p[i];
  }

  lemma InpatientKindRoundTrip(department: string, roomNumber: int32)
    ensures ParseKindSuffix(KindSuffix(Inpatient(department, roomNumber)))
         == Some(InpatientView(department, roomNumber as int))
  {
    var t := department + RoomLabel + IntToString(roomNumber as int);
    assert KindSuffix(Inpatient(department, roomNumber)) == DepartmentLabel + t;
    StripPrefixOfConcat(DepartmentLabel, t);
    InpatientSuffixRoundTrip(department, roomNumber as int);
  }

  lemma DayKindRoundTrip(a: DateTime, l: DateTime)
    ensures ParseKindSuffix(KindSuffix(Day(a, l))) == Some(DayView(TimeOf(a), TimeOf(l)))
  {
    var t := FormatTime(a) + LeaveTimeLabel + FormatTime(l);
    assert KindSuffix(Day(a, l)) == ArrivalTimeLabel + t;
    PrefixMismatch(ArrivalTimeLabel, DepartmentLabel, t, 2);
    StripPrefixOfConcat(ArrivalTimeLabel, t);
    DaySuffixRoundTrip(a, l);
  }

  lemma AmbulatoryKindRoundTrip(doctorName: string)
    ensures ParseKindSuffix(KindSuffix(Ambulatory(doctorName))) == Some(AmbulatoryView(doctorName))
  {
    PrefixMismatch(DoctorLabel, DepartmentLabel, doctorName, 2);
    PrefixMismatch(DoctorLabel, ArrivalTimeLabel, doctorName, 2);
    StripPrefixOfConcat(DoctorLabel, doctorName);
  }

  /** The suffix a subclass appends identifies the subclass and gives back its properties. */
  lemma KindSuffixRoundTrip(k: Kind)
    ensures ParseKindSuffix(KindSuffix(k)) == Some(ViewOfKind(k))
  {
    match k
    case General =>
    case Inpatient(department, roomNumber) => InpatientKindRoundTrip(department, roomNumber);
    case Day(a, l) => DayKindRoundTrip(a, l);
    case Ambulatory(doctorName) => AmbulatoryKindRoundTrip(doctorName);
  }

  lemma PriceLineRoundTrip(price: int)
    ensures ParsePriceLine(PriceLabel + IntToString(price) + CurrencySuffix) == Some(price)
  {
    var p := IntToString(price);
    assert PriceLabel + p + CurrencySuffix == PriceLabel + (p + CurrencySuffix);
    StripPrefixOfConcat(PriceLabel, p + CurrencySuffix);
    StripSuffixOfConcat(p, CurrencySuffix);
    IntToStringRoundTrip(price);
  }

  lemma PolicyTokenRoundTrip(r: Record)
    ensures ParseInt(AfterLastSpace(BaseInfo(r)[0])) == Some(r.policyNumber as int)
  {
    var p := IntToString(r.policyNumber as int);
    var head := NameLabel + r.name + SurnameLabel + r.surname + ", Номер полиса:";
    assert BaseInfo(r)[0] == head + " " + p;
    AfterLastSpaceOfToken(head, p);
    IntToStringRoundTrip(r.policyNumber as int);
  }

  /**
    The info block of every kind of patient determines the policy number, the
    service type, the two dates, the price and the subclass with its
    properties (times of day only, for a day patient).
  */
  lemma InfoRoundTrip(r: Record, k: Kind)
    ensures ParseInfo(Info(r, k)) == Some(InfoView(
      r.policyNumber as int, r.serviceType, DateOf(r.arrival), DateOf(r.discharge),
      r.price as int, ViewOfKind(k)))
  {
    PolicyTokenRoundTrip(r);
    ServiceLineRoundTrip(r, k);
    KindSuffixRoundTrip(k);
    PriceLineRoundTrip(r.price as int);
  }

  // -------------------------------------------------------------- objects

  class Patient {
    var name: string
    var surname: string
    const policyNumber: int32
    var arrival: DateTime
    var discharge: DateTime
    var serviceType: ServiceType
    var price: int32
    /** The object's class and its subclass properties; callers change the properties, never the tag. */
    var kind: Kind

    /** `new Patient(name, surname, policyNumber)`. */
    constructor (name: string, surname: string, policyNumber: int32)
      ensures this.name == name && this.surname == surname && this.policyNumber == policyNumber
      ensures arrival == MinValue && discharge == MinValue
      ensures serviceType == Insurance && price == 0 && kind == General
    {
      this.name, this.surname, this.policyNumber := name, surname, policyNumber;
      arrival, discharge := MinValue, MinValue;
      serviceType, price, kind := Insurance, 0, General;
    }

    /** `new Patient.InpatientPatient(...)`: stores its two properties as given. */
    constructor InpatientPatient(name: string, surname: string, policyNumber: int32, department: string, roomNumber: int32)
      ensures this.name == name && this.surname == surname && this.policyNumber == policyNumber
      ensures arrival == MinValue && discharge == MinValue
      ensures serviceType == Insurance && price == 0
      ensures kind == Inpatient(department, roomNumber)
    {
      this.name, this.surname, this.policyNumber := name, surname, policyNumber;
      arrival, discharge := MinValue, MinValue;
      serviceType, price := Insurance, 0;
      kind := Inpatient(department, roomNumber);
    }

    /** `new Patient.DayPatient(...)`: stores both times as given, in whatever order they come. */
    constructor DayPatient(name: string, surname: string, policyNumber: int32, arrivalDateTime: DateTime, leaveDateTime: DateTime)
      ensures this.name == name && this.surname == surname && this.policyNumber == policyNumber
      ensures arrival == MinValue && discharge == MinValue
      ensures serviceType == Insurance && price == 0
      ensures kind == Day(arrivalDateTime, leaveDateTime)
    {
      this.name, this.surname, this.policyNumber := name, surname, policyNumber;
      arrival, discharge := MinValue, MinValue;
      serviceType, price := Insurance, 0;
      kind := Day(arrivalDateTime, leaveDateTime);
    }

    /** `new Patient.AmbulatoryPatient(...)`: stores the doctor's name as given. */
    constructor AmbulatoryPatient(name: string, surname: string, policyNumber: int32, doctorName: string)
      ensures this.name == name && this.surname == surname && this.policyNumber == policyNumber
      ensures arrival == MinValue && discharge == MinValue
      ensures serviceType == Insurance && price == 0
      ensures kind == Ambulatory(doctorName)
    {
      this.name, this.surname, this.policyNumber := name, surname, policyNumber;
      arrival, discharge := MinValue, MinValue;
      serviceType, price := Insurance, 0;
      kind := Ambulatory(doctorName);
    }

    /** The fields the info block is made of. */
    function View(): Record
      reads this
    {
      Record(name, surname, policyNumber, serviceType, arrival, discharge, price)
    }

    /** `CompareTo`: 1 against null, otherwise surnames first, then names. */
    function CompareTo(other: Patient?): (r: int)
      reads this, other
      ensures -1 <= r <= 1
      ensures other == null ==> r == 1
    {
      if other == null then 1
      else
        var surnameComparison := CompareStrings(surname, other.surname);
        if surnameComparison != 0 then surnameComparison
        else CompareStrings(name, other.name)
    }

    /**
      `DatesCheck`: throws `ArgumentException(DatesMessage)` and changes nothing
      unless `discharge` is strictly after `arrival`; otherwise sets both dates.
    */
    method DatesCheck(arrival: DateTime, discharge: DateTime) returns (outcome: Outcome<string>)
      modifies this
      ensures outcome == if AtOrBefore(discharge, arrival) then Fail(DatesMessage) else Pass
      ensures outcome.Pass? ==> this.arrival == arrival && this.discharge == discharge
      ensures outcome.Fail? ==> this.arrival == old(this.arrival) && this.discharge == old(this.discharge)
      ensures name == old(name) && surname == old(surname)
      ensures serviceType == old(serviceType) && price == old(price) && kind == old(kind)
    {
      if AtOrBefore(discharge, arrival) {
        return Fail(DatesMessage);
      }
      this.arrival := arrival;
      this.discharge := discharge;
      outcome := Pass;
    }

    /** The base `GetInfo`, filling a fresh three-slot array. */
    method BaseGetInfo() returns (info: array<string>)
      ensures fresh(info) && info[..] == BaseInfo(View())
    {
      var serviceText;
      if serviceType == Insurance {
        serviceText := InsuranceText;
      } else {
        serviceText := PaidText;
      }
      var arrivalText := FormatDate(arrival);
      var dischargeText := FormatDate(discharge);
      info := new string[3];
      info[0] := NameLabel + name + SurnameLabel + surname + PolicyLabel + IntToString(policyNumber as int);
      info[1] := ServiceTypeLabel + serviceText + ArrivalLabel + arrivalText + DischargeLabel + dischargeText;
      info[2] := PriceLabel + IntToString(price as int) + CurrencySuffix;
    }

    /** The virtual `GetInfo`: the base block, or a subclass's override built from it. */
    method GetInfo() returns (info: array<string>)
      ensures fresh(info) && info[..] == Info(View(), kind)
    {
      var baseInfo := BaseGetInfo();
      match kind
      case General =>
        info := baseInfo;
      case Inpatient(department, roomNumber) =>
        info := new string[3] [baseInfo[0],
          baseInfo[1] + (DepartmentLabel + department + RoomLabel + IntToString(roomNumber as int)),
          baseInfo[2]];
      case Day(arrivalDateTime, leaveDateTime) =>
        var arrivalFormatted := FormatTime(arrivalDateTime);
        var leaveFormatted := FormatTime(leaveDateTime);
        info := new string[3] [baseInfo[0],
          baseInfo[1] + (ArrivalTimeLabel + arrivalFormatted + LeaveTimeLabel + leaveFormatted),
          baseInfo[2]];
      case Ambulatory(doctorName) =>
        info := new string[3] [baseInfo[0], baseInfo[1] + (DoctorLabel + doctorName), baseInfo[2]];
    }
  }

  // ------------------------------------------------------------- ordering

  /** The order `CompareTo` implements, stated directly: by surname, then by name. */
  ghost predicate OrderedBefore(p: Patient, q: Patient)
    reads p, q
  {
    LexLess(p.surname, q.surname) || (p.surname == q.surname && LexLess(p.name, q.name))
  }

  /** `CompareTo` is zero exactly on equal (surname, name) and negative exactly when ordered before. */
  lemma CompareToMeaning(p: Patient, q: Patient)
    ensures p.CompareTo(q) == 0 <==> p.surname == q.surname && p.name == q.name
    ensures p.CompareTo(q) < 0 <==> OrderedBefore(p, q)
    ensures p.CompareTo(q) > 0 <==> OrderedBefore(q, p)
  {
    CompareStringsMeaning(p.surname, q.surname);
    CompareStringsMeaning(p.name, q.name);
  }

  lemma CompareToReflexive(p: Patient)
    ensures p.CompareTo(p) == 0
  {
    CompareToMeaning(p, p);
  }

  /** Swapping the two patients flips the sign. */
  lemma CompareToAntisymmetric(p: Patient, q: Patient)
    ensures p.CompareTo(q) == -q.CompareTo(p)
  {
    CompareStringsAntisymmetric(p.surname, q.surname);
    CompareStringsAntisymmetric(p.name, q.name);
  }

  lemma CompareToTransitive(p: Patient, q: Patient, s: Patient)
    requires p.CompareTo(q) < 0 && q.CompareTo(s) < 0
    ensures p.CompareTo(s) < 0
  {
    CompareToMeaning(p, q);
    CompareToMeaning(q, s);
    CompareStringsMeaning(p.surname, q.surname);
    CompareStringsMeaning(q.surname, s.surname);
    CompareStringsMeaning(p.surname, s.surname);
    CompareStringsMeaning(p.name, q.name);
    CompareStringsMeaning(q.name, s.name);
    CompareStringsMeaning(p.name, s.name);
    if p.surname == q.surname && q.surname == s.surname {
      CompareStringsTransitive(p.name, q.name, s.name);
    } else if p.surname != q.surname && q.surname != s.surname {
      CompareStringsTransitive(p.surname, q.surname, s.surname);
    }
  }

  /** The unit tests' ordering cases: same surname decides by name, and a patient equals itself. */
  lemma TestedOrderings(john: Patient, tom: Patient)
    requires john.name == "John" && john.surname == "Fogerty"
    requires tom.name == "Tom" && tom.surname == "Fogerty"
    ensures john.CompareTo(tom) == -1 && tom.CompareTo(john) == 1 && tom.CompareTo(tom) == 0
    ensures tom.CompareTo(null) == 1
  {
    assert "Fogerty"[1..] == "ogerty";
    assert "John"[1..] == "ohn" && "Tom"[1..] == "om";
    CompareToReflexive(tom);
  }
}
