/** `ReservationMerger`: folds a freshly imported reservation record into
    the one already on the sheet, field by field, so that re-importing the
    same data changes nothing and never erases what the sheet already has. */
module ReservationMerger {
  import opened Base

  /** Fields recomputed by the financial breakdown after every merge. */
  const FinancialFields: set<string> := {
    "airbnb_fee", "lodgify_fee", "stripe_fee", "dynamic_fee", "total_fees",
    "vat_amount", "net_revenue", "payout_expected", "price_per_night",
    "price_per_guest_per_night"
  }

  /** Fields always taken from the incoming record. `payout_expected` is
      also financial, and the financial rule is applied first. */
  const AlwaysOverwriteFields: set<string> := {"country", "payout_expected"}

  /** `_is_empty`: `None`, a whitespace-only text, or the number zero. */
  predicate IsEmpty(v: Value) {
    match v
    case VNone => true
    case VStr(s) => Blank(s)
    case VNum(x) => x == 0.0
  }

  /** What the financial rule accepts as an incoming value: anything but `None`
      and whitespace-only text (so the number zero counts). */
  predicate FinancialPresent(v: Value) {
    !v.VNone? && !(v.VStr? && Blank(v.s))
  }

  /** The merged value of one field, given the existing and incoming values. */
  function MergeField(k: string, prev: Value, incoming: Value): (r: Value)
    ensures k in FinancialFields ==>
              (FinancialPresent(incoming) ==> r == incoming)
              && (!FinancialPresent(incoming) ==> r == (if prev.VNone? then VNum(0.0) else prev))
    ensures k !in FinancialFields && k in AlwaysOverwriteFields ==>
              r == (if incoming.VNone? then VStr("") else incoming)
    ensures k !in FinancialFields && k !in AlwaysOverwriteFields ==>
              (IsEmpty(prev) && !IsEmpty(incoming) ==> r == incoming)
              && (!IsEmpty(prev) && IsEmpty(incoming) ==> r == prev)
              && (!IsEmpty(prev) && !IsEmpty(incoming) ==> r == incoming)
              && (IsEmpty(prev) && IsEmpty(incoming) ==> r == (if incoming.VNone? then prev else incoming))
  {
    if k in FinancialFields then
      if FinancialPresent(incoming) then incoming
      else if !prev.VNone? then prev
      else VNum(0.0)
    else if k in AlwaysOverwriteFields then
      if !incoming.VNone? then incoming else VStr("")
    else if IsEmpty(prev) && !IsEmpty(incoming) then incoming
    else if !IsEmpty(prev) && IsEmpty(incoming) then prev
    else if !IsEmpty(prev) && !IsEmpty(incoming) then incoming
    else if !incoming.VNone? then incoming
    else prev
  }

  /** `merge(existing, incoming)`. */
  function Merge(existing: Record, incoming: Record): (r: Record)
    ensures r.Keys == existing.Keys + incoming.Keys
    ensures forall k :: k in r ==> r[k] == MergeField(k, Get(existing, k), Get(incoming, k))
  {
    map k | k in existing.Keys + incoming.Keys :: MergeField(k, Get(existing, k), Get(incoming, k))
  }

  // ---------------------------------------------------------------------
  // Properties

  /** A field the sheet already holds is never blanked by an ordinary merge. */
  lemma NoErasure(existing: Record, incoming: Record, k: string)
    requires k in existing && !IsEmpty(existing[k])
    requires k !in FinancialFields && k !in AlwaysOverwriteFields
    ensures k in Merge(existing, incoming) && !IsEmpty(Merge(existing, incoming)[k])
  {
  }

  /** A financial field present on either side never comes out as `None`. */
  lemma FinancialNeverNone(existing: Record, incoming: Record, k: string)
    requires k in FinancialFields && (k in existing || k in incoming)
    ensures !Merge(existing, incoming)[k].VNone?
  {
  }

  /** The financial rule wins for `payout_expected`: a blank incoming value
      keeps the existing payout instead of writing "". */
  lemma PayoutKeepsExisting(x: real)
    ensures MergeField("payout_expected", VNum(x), VStr("")) == VNum(x)
  {
  }

  /** `country` follows the incoming record even when that erases it. */
  lemma CountryOverwritten(prev: Value)
    ensures MergeField("country", prev, VNone) == VStr("")
    ensures MergeField("country", prev, VStr("")) == VStr("")
  {
  }

  /** The documented example: a name the import leaves blank is kept, an
      e-mail the sheet lacked is filled in. */
  lemma DocExample()
    ensures Merge(map["guest_name" := VStr("John"), "guest_email" := VStr("")],
                  map["guest_name" := VStr(""), "guest_email" := VStr("john@example.com")])
            == map["guest_name" := VStr("John"), "guest_email" := VStr("john@example.com")]
  {
    var e := map["guest_name" := VStr("John"), "guest_email" := VStr("")];
    var n := map["guest_name" := VStr(""), "guest_email" := VStr("john@example.com")];
    assert Blank("");
    assert !Blank("John") by { assert !IsSpace("John"[0]); }
    assert !Blank("john@example.com") by { assert !IsSpace("john@example.com"[0]); }
    assert "guest_name" !in FinancialFields && "guest_email" !in FinancialFields;
    assert Merge(e, n).Keys == {"guest_name", "guest_email"};
  }

  lemma MergeFieldIdempotent(k: string, prev: Value, incoming: Value)
    ensures MergeField(k, MergeField(k, prev, incoming), incoming) == MergeField(k, prev, incoming)
  {
  }

  /** Merging the same import twice is the same as merging it once. */
  lemma MergeIdempotent(existing: Record, incoming: Record)
    ensures Merge(Merge(existing, incoming), incoming) == Merge(existing, incoming)
  {
    var m := Merge(existing, incoming);
    forall k | k in m
      ensures Merge(m, incoming)[k] == m[k]
    {
      MergeFieldIdempotent(k, Get(existing, k), Get(incoming, k));
    }
  }
}
