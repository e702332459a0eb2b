/**
  The earlier `Patient` of PatientLibraryTask13: the same fields and info
  block as the later revision, without subclasses or ordering, and with the
  date check written on the `TimeSpan` between the two dates.
*/
module PatientsTask13 {
  import opened Results
  import opened Text
  import opened DateTimes
  import Patients

  /**
    The Task13 guard `(discharge - arrival).TotalDays <= 0` rejects exactly
    the pairs the Task15 guard `discharge <= arrival` rejects: those where the
    discharge does not come after the arrival in calendar order.
  */
  lemma DatesGuardsAgree(arrival: DateTime, discharge: DateTime)
    ensures TotalDays(Subtract(discharge, arrival)) <= 0.0 <==> AtOrBefore(discharge, arrival)
    ensures TotalDays(Subtract(discharge, arrival)) <= 0.0 <==> !LexBefore(arrival, discharge)
  {
    TotalDaysNonPositive(arrival, discharge);
  }

  class Patient {
    var name: string
    var surname: string
    const policyNumber: int32
    var arrival: DateTime
    var discharge: DateTime
    var serviceType: Patients.ServiceType
    var price: int32

    /** `new Patient(name, surname, policyNumber)`. */
    constructor (name: string, surname: string, policyNumber: int32)
      ensures this.name == name && this.surname == surname && this.policyNumber == policyNumber
      ensures arrival == MinValue && discharge == MinValue
      ensures serviceType == Patients.Insurance && price == 0
    {
      this.name, this.surname, this.policyNumber := name, surname, policyNumber;
      arrival, discharge := MinValue, MinValue;
      serviceType, price := Patients.Insurance, 0;
    }

    function View(): Patients.Record
      reads this
    {
      Patients.Record(name, surname, policyNumber, serviceType, arrival, discharge, price)
    }

    /**
      `DatesCheck`: throws `ArgumentException` and changes nothing when the span
      from `arrival` to `discharge` is not positive; otherwise sets both dates.
    */
    method DatesCheck(arrival: DateTime, discharge: DateTime) returns (outcome: Outcome<string>)
      modifies this
      ensures outcome == if TotalDays(Subtract(discharge, arrival)) <= 0.0 then Fail(Patients.DatesMessage) else Pass
      ensures outcome.Pass? <==> Before(arrival, discharge)
      ensures outcome.Pass? ==> this.arrival == arrival && this.discharge == discharge
      ensures outcome.Fail? ==> this.arrival == old(this.arrival) && this.discharge == old(this.discharge)
      ensures name == old(name) && surname == old(surname)
      ensures serviceType == old(serviceType) && price == old(price)
    {
      DatesGuardsAgree(arrival, discharge);
      if TotalDays(Subtract(discharge, arrival)) <= 0.0 {
        return Fail(Patients.DatesMessage);
      }
      this.arrival := arrival;
      this.discharge := discharge;
      outcome := Pass;
    }

    /** `GetInfo`: the same three lines as the later revision's base class. */
    method GetInfo() returns (info: array<string>)
      ensures fresh(info) && info[..] == Patients.BaseInfo(View())
    {
      var serviceText;
      if serviceType == Patients.Insurance {
        serviceText := Patients.InsuranceText;
      } else {
        serviceText := Patients.PaidText;
      }
      var arrivalText := FormatDate(arrival);
      var dischargeText := FormatDate(discharge);
      info := new string[3];
      info[0] := Patients.NameLabel + name + Patients.SurnameLabel + surname + Patients.PolicyLabel
        + IntToString(policyNumber as int);
      info[1] := Patients.ServiceTypeLabel + serviceText + Patients.ArrivalLabel + arrivalText
        + Patients.DischargeLabel + dischargeText;
      info[2] := Patients.PriceLabel + IntToString(price as int) + Patients.CurrencySuffix;
    }
  }
}
