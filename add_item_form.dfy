/** The form that adds a product to the inventory, with its quick date picks and its simulated scanner. */
module AddItemForm {
  import opened Wrappers
  import opened Types
  import opened Dates
  import opened Text
  import opened Freshness
  import InventoryStore

  /** The product names the simulated scanner can "read". */
  const MockBarcodeDb: seq<string> := [
    "Sauce Tomate Basilic",
    "Pâte à tartiner",
    "Jus d'Orange Bio",
    "Yaourt Nature x4",
    "Paquet de Pâtes",
    "Riz Basmati",
    "Conserve de Maïs",
    "Tablette de Chocolat"
  ]

  /** The quick date buttons, in days from today. */
  const QuickPicks: seq<nat> := [3, 7, 14, 30]

  /**
   * The submit guard: a draft goes out only with a name and a date; the name is taken as typed,
   * without trimming.
   */
  function Draft(name: string, location: StorageLocation, quantity: string, unit: Unit, expiry: Option<Day>)
    : (r: Option<InventoryStore.ItemDraft>)
    ensures r.None? <==> name == [] || expiry.None?
    ensures r.Some? ==> r.value.name == name && r.value.location == location && r.value.quantity == quantity
                        && r.value.unit == unit && r.value.expiryDate == expiry.value
  {
    if name == [] || expiry.None? then None
    else Some(InventoryStore.ItemDraft(name, location, quantity, unit, expiry.value))
  }

  /** `k` steps of 0.1. */
  function Tenths(k: int): real {
    k as real / 10.0
  }

  /** Whether a real is a whole number. */
  predicate IsWhole(x: real) {
    x.Floor as real == x
  }

  /**
   * The browser's constraint validation of the quantity field (`required`, `min="0.1"`,
   * `step="0.1"`): the text is a number, at least 0.1, and a whole number of 0.1 steps above 0.1.
   * While it fails, the browser does not fire the submit event.
   */
  function QuantityAccepted(quantity: string): (ok: bool)
    ensures ok ==> quantity != [] && quantity[0] != '-'
  {
    var v := ParseFloatingPoint(quantity);
    v.Some? && v.value >= 0.1 && IsWhole((v.value - 0.1) / 0.1)
  }

  /** The accepted quantities are exactly the texts worth a positive number of tenths. */
  lemma QuantityAcceptedIffTenths(quantity: string)
    ensures QuantityAccepted(quantity) <==>
      exists k: int :: k >= 1 && ParseFloatingPoint(quantity) == Some(Tenths(k))
  {
    var v := ParseFloatingPoint(quantity);
    if QuantityAccepted(quantity) {
      var n := ((v.value - 0.1) / 0.1).Floor;
      assert v.value == Tenths(n + 1);
    }
    if exists k: int :: k >= 1 && v == Some(Tenths(k)) {
      var k: int :| k >= 1 && v == Some(Tenths(k));
      assert (v.value - 0.1) / 0.1 == (k - 1) as real;
    }
  }

  /** Every whole quantity from 1 up passes, the default "1" among them. */
  lemma WholeQuantityAccepted(n: nat)
    requires n >= 1
    ensures QuantityAccepted(NatToString(n))
  {
    var text := NatToString(n);
    ParseWholeText(text);
    ParseNatToString(n);
    assert ParseFloatingPoint(text) == Some(n as real);
    var steps: int := 10 * n - 1;
    assert (n as real - 0.1) / 0.1 == steps as real;
    assert IsWhole(steps as real);
  }

  /** The browser refuses an empty quantity and a zero one. */
  lemma EmptyAndZeroRefused()
    ensures !QuantityAccepted("") && !QuantityAccepted("0")
  {
    ParseWholeText("0");
    assert ParseDigits("0") == 0;
  }

  /** The browser refuses a quantity between two steps. */
  lemma OffStepRefused()
    ensures !QuantityAccepted("1.25")
  {
    ParseDecimalText("1", "25");
    assert "1" + "." + "25" == "1.25";
    assert ParseDigits("25") == 25 && Pow10(2) == 100;
    assert DecimalValue("1", "25") == 1.25;
    assert !IsWhole(11.5);
  }

  /** The browser takes a single tenth, and a trailing zero does not matter. */
  lemma TenthsTaken()
    ensures QuantityAccepted("0.1") && QuantityAccepted("2.50")
  {
    ParseDecimalText("0", "1");
    assert "0" + "." + "1" == "0.1";
    assert DecimalValue("0", "1") == 0.1;
    assert IsWhole(0.0);
    ParseDecimalText("2", "50");
    assert "2" + "." + "50" == "2.50";
    assert ParseDigits("50") == 50;
    assert DecimalValue("2", "50") == 2.5;
    assert IsWhole(24.0);
  }

  /** Every name the scanner can fill in is accepted by the submit guard once a date is set. */
  lemma ScannedNamesAreSubmittable(pick: nat, location: StorageLocation, quantity: string, unit: Unit, expiry: Day)
    requires pick < |MockBarcodeDb|
    ensures Draft(MockBarcodeDb[pick], location, quantity, unit, Some(expiry)).Some?
  {
    assert |MockBarcodeDb[pick]| > 0;
  }

  /**
   * A food product dated with a quick pick on the day it is added shows: critical for +3,
   * warning for +7, fresh for +14 and +30.
   */
  lemma QuickPickStatus(location: StorageLocation, today: Day, k: nat)
    requires location != Household && k < |QuickPicks|
    ensures var s := Classify(location, DaysLeft(today + QuickPicks[k], today));
      (k == 0 ==> s == Critical(3)) && (k == 1 ==> s == Warning(7)) && (k >= 2 ==> s == Fresh(QuickPicks[k]))
  {
  }

  class FormState {
    var name: string
    var location: StorageLocation
    var quantity: string
    var unit: Unit
    /** The chosen expiry day; `None` while the date field is empty. */
    var expiryDate: Option<Day>
    var isScanning: bool
    /** Whether a camera stream is held (`streamRef.current` not null). */
    var streamOpen: bool

    /** An empty form: fridge, quantity 1, pieces, no date, scanner off. */
    constructor ()
      ensures name == "" && location == Fridge && quantity == "1" && unit == Piece && expiryDate.None?
      ensures !isScanning && !streamOpen
    {
      name := "";
      location := Fridge;
      quantity := "1";
      unit := Piece;
      expiryDate := None;
      isScanning := false;
      streamOpen := false;
    }

    method SetName(text: string)
      modifies this
      ensures name == text
      ensures location == old(location) && quantity == old(quantity) && unit == old(unit)
      ensures expiryDate == old(expiryDate) && isScanning == old(isScanning) && streamOpen == old(streamOpen)
    {
      name := text;
    }

    /** A quick pick: the date `days` days after today. */
    method SetDaysFromNow(today: Day, days: nat)
      modifies this
      ensures expiryDate == Some(today + days)
      ensures name == old(name) && location == old(location) && quantity == old(quantity) && unit == old(unit)
      ensures isScanning == old(isScanning) && streamOpen == old(streamOpen)
    {
      expiryDate := Some(today + days);
    }

    /**
     * Pressing the submit button: the browser first checks the fields (the `required` name and
     * date refuse exactly what `handleSubmit`'s own guard refuses; the quantity adds its range and
     * step), then `handleSubmit` hands the draft to the inventory. The form itself is left as it is.
     */
    method Submit() returns (added: Option<InventoryStore.ItemDraft>)
      ensures added.Some? <==> name != [] && expiryDate.Some? && QuantityAccepted(quantity)
      ensures added.Some? ==> added == Draft(name, location, quantity, unit, expiryDate)
    {
      if QuantityAccepted(quantity) {
        added := Draft(name, location, quantity, unit, expiryDate);
      } else {
        added := None;
      }
    }

    /** The scan button: the scanner view opens before the camera answers. */
    method StartScanning()
      modifies this
      ensures isScanning && streamOpen == old(streamOpen)
      ensures name == old(name) && location == old(location) && quantity == old(quantity) && unit == old(unit)
      ensures expiryDate == old(expiryDate)
    {
      isScanning := true;
    }

    /** The camera's answer: a granted stream is held; a refusal closes the scanner again. */
    method CameraAnswered(granted: bool)
      modifies this
      ensures granted ==> streamOpen && isScanning == old(isScanning)
      ensures !granted ==> !isScanning && streamOpen == old(streamOpen)
      ensures name == old(name) && location == old(location) && quantity == old(quantity) && unit == old(unit)
      ensures expiryDate == old(expiryDate)
    {
      if granted {
        streamOpen := true;
      } else {
        isScanning := false;
      }
    }

    /** `stopScanning`: releases any stream and closes the scanner; doing it twice changes nothing more. */
    method StopScanning()
      modifies this
      ensures !isScanning && !streamOpen
      ensures name == old(name) && location == old(location) && quantity == old(quantity) && unit == old(unit)
      ensures expiryDate == old(expiryDate)
    {
      streamOpen := false;
      isScanning := false;
    }

    /**
     * `handleDetected`, given the random pick: the product name is filled in from the mock
     * database and the scanner stops. It runs when the timer fires, whether or not the
     * scanner was closed meanwhile.
     */
    method HandleDetected(pick: nat)
      requires pick < |MockBarcodeDb|
      modifies this
      ensures name == MockBarcodeDb[pick] && name != []
      ensures !isScanning && !streamOpen
      ensures location == old(location) && quantity == old(quantity) && unit == old(unit)
      ensures expiryDate == old(expiryDate)
    {
      name := MockBarcodeDb[pick];
      assert |name| > 0;
      StopScanning();
    }
  }
}
