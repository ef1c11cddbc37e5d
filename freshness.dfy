/** The freshness status shown on each inventory card. */
module Freshness {
  import opened Types
  import opened Text
  import opened Dates

  /** The five statuses a card can show; the dated ones carry the days left. */
  datatype Status = HouseholdProduct | Expired | Critical(daysLeft: nat) | Warning(daysLeft: nat) | Fresh(daysLeft: nat)

  /**
   * Whole days from `today` to the expiry day. With the expiry read as midnight UTC and the
   * current instant inside day `today`, the ceiling of the millisecond difference over one
   * day is exactly this difference of day numbers.
   */
  function DaysLeft(expiry: Day, today: Day): (d: int)
    ensures today + d == expiry
    ensures d < 0 <==> expiry < today
  {
    expiry - today
  }

  /** The status chain: household first, then expired, critical (0..3), warning (4..7), fresh. */
  function Classify(location: StorageLocation, daysLeft: int): (s: Status)
    ensures s.HouseholdProduct? <==> location == Household
    ensures s.Expired? <==> location != Household && daysLeft < 0
    ensures s.Critical? <==> location != Household && 0 <= daysLeft <= 3
    ensures s.Warning? <==> location != Household && 4 <= daysLeft <= 7
    ensures s.Fresh? <==> location != Household && daysLeft > 7
    ensures (s.Critical? || s.Warning? || s.Fresh?) ==> s.daysLeft == daysLeft
  {
    if location == Household then HouseholdProduct
    else if daysLeft < 0 then Expired
    else if daysLeft <= 3 then Critical(daysLeft)
    else if daysLeft <= 7 then Warning(daysLeft)
    else Fresh(daysLeft)
  }

  /** The status of one item's card. */
  function CardStatus(item: InventoryItem, today: Day): (s: Status)
    ensures s.HouseholdProduct? <==> item.location == Household
    ensures s.Expired? <==> item.location != Household && item.expiryDate < today
    ensures s.Critical? <==> item.location != Household && today <= item.expiryDate <= today + 3
    ensures s.Warning? <==> item.location != Household && today + 4 <= item.expiryDate <= today + 7
    ensures s.Fresh? <==> item.location != Household && item.expiryDate > today + 7
    ensures (s.Critical? || s.Warning? || s.Fresh?) ==> today + s.daysLeft == item.expiryDate
  {
    Classify(item.location, DaysLeft(item.expiryDate, today))
  }

  /** The label under the item name. */
  function StatusText(s: Status): (t: string)
    ensures |t| > 0
    ensures (s.HouseholdProduct? || s.Expired?) <==> forall i :: 0 <= i < |t| ==> !IsDigit(t[i])
  {
    match s
    case HouseholdProduct => "Produit ménager"
    case Expired => "Expiré"
    case Critical(d) =>
      var t := "Critique: " + NatToString(d) + "j";
      assert IsDigit(t[10]);
      t
    case Warning(d) =>
      var t := "Attention: " + NatToString(d) + "j";
      assert IsDigit(t[11]);
      t
    case Fresh(d) =>
      var t := NatToString(d) + " jours";
      assert IsDigit(t[0]);
      t
  }

  /** The card icon of each location; anything not a food location falls to the broom. */
  function LocationIcon(l: StorageLocation): (icon: string)
    ensures icon == "fa-broom" <==> l == Household
  {
    match l
    case Fridge => "fa-snowflake"
    case Freezer => "fa-icicles"
    case Pantry => "fa-box"
    case Household => "fa-broom"
  }

  /** The dated labels show the number of days left: it can be read back from the label. */
  lemma {:induction false} DatedLabelShowsDays(location: StorageLocation, daysLeft: int)
    requires location != Household && daysLeft >= 0
    ensures var t := StatusText(Classify(location, daysLeft));
      if daysLeft <= 3 then
        |t| > 11 && t[..10] == "Critique: " && AllDigits(t[10..|t| - 1]) && ParseDigits(t[10..|t| - 1]) == daysLeft
      else if daysLeft <= 7 then
        |t| > 12 && t[..11] == "Attention: " && AllDigits(t[11..|t| - 1]) && ParseDigits(t[11..|t| - 1]) == daysLeft
      else
        |t| > 6 && t[|t| - 6..] == " jours" && AllDigits(t[..|t| - 6]) && ParseDigits(t[..|t| - 6]) == daysLeft
  {
    var t := StatusText(Classify(location, daysLeft));
    var n := NatToString(daysLeft);
    ParseNatToString(daysLeft);
    if daysLeft <= 3 {
      assert t == "Critique: " + n + "j";
      assert t[10..|t| - 1] == n;
    } else if daysLeft <= 7 {
      assert t == "Attention: " + n + "j";
      assert t[11..|t| - 1] == n;
    } else {
      assert t == n + " jours";
      assert t[..|t| - 6] == n;
    }
  }

  /**
   * The card's `isHousehold` flag: household items, and pantry items whose lower-cased name
   * contains "savon". The card computes it and never reads it.
   */
  predicate HouseholdFlag(item: InventoryItem) {
    item.location == Household || (item.location == Pantry && Includes(ToLower(item.name), "savon"))
  }

  /** The status depends on the location and expiry only, never on the name or the flag. */
  lemma StatusIgnoresName(a: InventoryItem, b: InventoryItem, today: Day)
    requires a.location == b.location && a.expiryDate == b.expiryDate
    ensures CardStatus(a, today) == CardStatus(b, today)
  {
  }

  /** A pantry soap gets the flag, yet its card is dated like any food. */
  lemma PantrySoapIsStillDated(item: InventoryItem, today: Day)
    requires item.location == Pantry && item.name == "savon" && item.expiryDate == today + 10
    ensures HouseholdFlag(item)
    ensures CardStatus(item, today) == Fresh(10)
  {
    assert ToLower(item.name) == "savon";
    assert OccursAt(ToLower(item.name), "savon", 0);
  }

  /**
   * The filter the home screen and the smart-meal request share: food items with at most
   * three days left, which includes the ones already expired.
   */
  predicate IsUrgent(item: InventoryItem, today: Day) {
    DaysLeft(item.expiryDate, today) <= 3 && item.location != Household
  }

  /** Urgent items are exactly those whose card says expired or critical. */
  lemma UrgentIsExpiredOrCritical(item: InventoryItem, today: Day)
    ensures IsUrgent(item, today) <==> CardStatus(item, today).Expired? || CardStatus(item, today).Critical?
  {
  }
}
