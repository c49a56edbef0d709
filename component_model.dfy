/**
 * The database side of the catalogue: the publication status of a
 * component, the decimal field used for angles, and the brand and
 * component tables with the checks a row must pass to be stored (field
 * lengths, blank values, the GTIN bound, and the unique constraints).
 */
module ComponentModel {
  import opened Wrappers
  import opened JsMath

  // ---------------------------------------------------------------------
  // Status
  // ---------------------------------------------------------------------

  /** `Component.StatusChoices`. */
  datatype Status = Private | Public | AwaitingApproval | Published | Rejected

  /** The value stored in the database for a status. */
  function Value(s: Status): string {
    match s
    case Private => "private"
    case Public => "public"
    case AwaitingApproval => "awaiting_approval"
    case Published => "published"
    case Rejected => "rejected"
  }

  /** The human-readable label of a status. */
  function Label(s: Status): string {
    match s
    case Private => "Private"
    case Public => "Public"
    case AwaitingApproval => "Awaiting approval"
    case Published => "Published"
    case Rejected => "Rejected"
  }

  /** The choice check: a stored value names a status, or it is refused. */
  function ParseStatus(v: string): (r: Option<Status>)
    ensures r.Some? ==> Value(r.value) == v
  {
    if v == "private" then Some(Private)
    else if v == "public" then Some(Public)
    else if v == "awaiting_approval" then Some(AwaitingApproval)
    else if v == "published" then Some(Published)
    else if v == "rejected" then Some(Rejected)
    else None
  }

  /** Every status is read back from the value it is stored as. */
  lemma ParseValue(s: Status)
    ensures ParseStatus(Value(s)) == Some(s)
  {
  }

  /** Exactly five values are accepted. */
  lemma ExactlyFiveValues(v: string)
    ensures ParseStatus(v).Some? <==>
      v == "private" || v == "public" || v == "awaiting_approval" || v == "published" || v == "rejected"
  {
  }

  /** Two statuses are never stored as the same value, nor shown with the same label. */
  lemma ValuesDistinct(s: Status, t: Status)
    ensures Value(s) == Value(t) ==> s == t
    ensures Label(s) == Label(t) ==> s == t
  {
    ParseValue(s);
    ParseValue(t);
  }

  /** The status a component gets when none is given. */
  const DefaultStatus: Status := Private

  // ---------------------------------------------------------------------
  // Decimal fields and angles
  // ---------------------------------------------------------------------

  function Pow10(n: nat): (r: nat)
    ensures r >= 1
  {
    if n == 0 then 1 else 10 * Pow10(n - 1)
  }

  /** A `DecimalField` with the range its validators give it. */
  datatype DecimalField = DecimalField(maxDigits: nat, decimalPlaces: nat, lo: real, hi: real)

  /**
   * A value the field stores: within the range, with no more decimals than
   * `decimalPlaces`, and no more than `maxDigits` digits once written with
   * exactly `decimalPlaces` decimals.
   */
  predicate DecimalAccepts(f: DecimalField, x: real) {
    var scaled := x * Pow10(f.decimalPlaces) as real;
    f.lo <= x <= f.hi && IsInteger(scaled)
    && -(Pow10(f.maxDigits) as real) < scaled < Pow10(f.maxDigits) as real
  }

  /**
   * `AngleField`: 4 digits and 2 decimals unless told otherwise, and always
   * the range 0 to 90, whatever validators the caller passed.
   */
  function AngleField(maxDigits: Option<nat>, decimalPlaces: Option<nat>): (f: DecimalField)
    ensures f.lo == 0.0 && f.hi == 90.0
    ensures maxDigits.None? ==> f.maxDigits == 4
    ensures maxDigits.Some? ==> f.maxDigits == maxDigits.value
    ensures decimalPlaces.None? ==> f.decimalPlaces == 2
    ensures decimalPlaces.Some? ==> f.decimalPlaces == decimalPlaces.value
  {
    DecimalField(
      if maxDigits.None? then 4 else maxDigits.value,
      if decimalPlaces.None? then 2 else decimalPlaces.value,
      0.0, 90.0)
  }

  /**
   * A default angle field stores exactly the angles from 0 to 90 with at
   * most two decimals: the digit limit never refuses what the range allows.
   */
  lemma AngleValues(x: real)
    ensures DecimalAccepts(AngleField(None, None), x) <==> 0.0 <= x <= 90.0 && IsInteger(x * 100.0)
  {
    var f := AngleField(None, None);
    assert Pow10(2) == 100;
    assert Pow10(4) == 10000;
    if 0.0 <= x <= 90.0 {
      assert x * 100.0 <= 9000.0;
    }
  }

  /** 45.5 degrees is stored, 90.01 and 12.345 degrees are refused. */
  lemma AngleExamples()
    ensures DecimalAccepts(AngleField(None, None), 45.5)
    ensures !DecimalAccepts(AngleField(None, None), 90.01)
    ensures !DecimalAccepts(AngleField(None, None), 12.345)
  {
    AngleValues(45.5);
    AngleValues(12.345);
    assert 45.5 * 100.0 == 4550 as real;
    FloorOfInteger(4550);
    assert 12.345 * 100.0 == 1234.5;
    assert (1234.5).Floor == 1234;
  }

  // ---------------------------------------------------------------------
  // Brands
  // ---------------------------------------------------------------------

  /** The longest name, model, size or MPN a row may hold. */
  const MaxLength: nat := 100

  /** Why a row is refused. */
  datatype RowError = TooLong | Blank | GtinOutOfRange | GtinTaken | NameTaken | DuplicateBrandMpnSize

  /** No name appears twice in the brand table. */
  predicate NamesUnique(names: seq<string>) {
    forall i, j | 0 <= i < j < |names| :: names[i] != names[j]
  }

  /** Adding a brand: the name must be non-blank, at most 100 characters, and new. */
  function InsertBrand(names: seq<string>, name: string): (r: Result<seq<string>, RowError>)
    ensures r.Ok? <==> 1 <= |name| <= MaxLength && name !in names
    ensures r.Ok? ==> r.value == names + [name]
  {
    if |name| > MaxLength then Err(TooLong)
    else if |name| == 0 then Err(Blank)
    else if name in names then Err(NameTaken)
    else Ok(names + [name])
  }

  /** Adding brands one by one keeps their names unique. */
  lemma InsertBrandUnique(names: seq<string>, name: string)
    requires NamesUnique(names)
    requires InsertBrand(names, name).Ok?
    ensures NamesUnique(InsertBrand(names, name).value)
  {
    var r := names + [name];
    forall i, j | 0 <= i < j < |r| ensures r[i] != r[j] {
      if j == |names| {
        assert r[i] == names[i];
      } else {
        assert r[i] == names[i] && r[j] == names[j];
      }
    }
  }

  // ---------------------------------------------------------------------
  // Components
  // ---------------------------------------------------------------------

  /** `gtin` is at most fourteen digits. */
  const GtinMax: nat := 100_000_000_000_000 - 1

  /**
   * A component row of one kind (pedal, cassette, bike): the brand it
   * refers to, model, size, GTIN, MPN and status; a `None` is a `NULL`.
   */
  datatype Component = Component(
    brand: Option<nat>, model: string, size: string,
    gtin: Option<int>, mpn: Option<string>, status: Status)

  /** A new component, with the default status when none is given. */
  function NewComponent(brand: Option<nat>, model: string, size: string,
                        gtin: Option<int>, mpn: Option<string>, status: Option<Status>): (c: Component)
    ensures status.None? ==> c.status == Private
    ensures status.Some? ==> c.status == status.value
    ensures c.brand == brand && c.model == model && c.size == size && c.gtin == gtin && c.mpn == mpn
  {
    Component(brand, model, size, gtin, mpn, if status.None? then DefaultStatus else status.value)
  }

  /** The GTIN is absent, or a whole number from 0 to 10^14 - 1. */
  predicate GtinValid(g: Option<int>) {
    g.None? || 0 <= g.value <= GtinMax
  }

  /** The field checks of one row: lengths, a non-blank MPN when there is one, the GTIN bound. */
  function CheckFields(c: Component): (r: Option<RowError>)
    ensures r.None? <==>
      |c.model| <= MaxLength && |c.size| <= MaxLength && GtinValid(c.gtin)
      && (c.mpn.Some? ==> 1 <= |c.mpn.value| <= MaxLength)
  {
    if |c.model| > MaxLength || |c.size| > MaxLength then Some(TooLong)
    else if c.mpn.Some? && |c.mpn.value| > MaxLength then Some(TooLong)
    else if c.mpn.Some? && |c.mpn.value| == 0 then Some(Blank)
    else if !GtinValid(c.gtin) then Some(GtinOutOfRange)
    else None
  }

  /** Two rows carry the same GTIN; no two `NULL`s clash. */
  predicate SameGtin(a: Component, b: Component) {
    a.gtin.Some? && a.gtin == b.gtin
  }

  /**
   * Two rows clash on the unique (brand, mpn, size) constraint: a `NULL`
   * brand or MPN is distinct from every other value, itself included.
   */
  predicate SameBrandMpnSize(a: Component, b: Component) {
    a.brand.Some? && a.mpn.Some? && a.brand == b.brand && a.mpn == b.mpn && a.size == b.size
  }

  /** What the table keeps true: every row passes the field checks and no two rows clash. */
  predicate TableValid(rows: seq<Component>) {
    (forall i | 0 <= i < |rows| :: CheckFields(rows[i]).None?)
    && (forall i, j | 0 <= i < j < |rows| :: !SameGtin(rows[i], rows[j]) && !SameBrandMpnSize(rows[i], rows[j]))
  }

  /** Adding a row: the field checks first, then the two unique constraints. */
  function Insert(rows: seq<Component>, c: Component): (r: Result<seq<Component>, RowError>)
    ensures r.Ok? ==> r.value == rows + [c]
    ensures r.Err? && CheckFields(c).None? ==> r.error == GtinTaken || r.error == DuplicateBrandMpnSize
  {
    var e := CheckFields(c);
    if e.Some? then Err(e.value)
    else if exists i | 0 <= i < |rows| :: SameGtin(rows[i], c) then Err(GtinTaken)
    else if exists i | 0 <= i < |rows| :: SameBrandMpnSize(rows[i], c) then Err(DuplicateBrandMpnSize)
    else Ok(rows + [c])
  }

  /** A row is stored exactly when it passes the field checks and clashes with no stored row. */
  lemma InsertAccepts(rows: seq<Component>, c: Component)
    ensures Insert(rows, c).Ok? <==>
      CheckFields(c).None? && forall i | 0 <= i < |rows| :: !SameGtin(rows[i], c) && !SameBrandMpnSize(rows[i], c)
  {
  }

  /** Clashes do not depend on which row came first. */
  lemma ClashSymmetric(a: Component, b: Component)
    ensures SameGtin(a, b) <==> SameGtin(b, a)
    ensures SameBrandMpnSize(a, b) <==> SameBrandMpnSize(b, a)
  {
  }

  /** Adding rows one by one keeps the table valid. */
  lemma InsertKeepsValid(rows: seq<Component>, c: Component)
    requires TableValid(rows)
    requires Insert(rows, c).Ok?
    ensures TableValid(Insert(rows, c).value)
  {
    InsertAccepts(rows, c);
    var r := rows + [c];
    forall i | 0 <= i < |r| ensures CheckFields(r[i]).None? {
      if i < |rows| {
        assert r[i] == rows[i];
      }
    }
    forall i, j | 0 <= i < j < |r| ensures !SameGtin(r[i], r[j]) && !SameBrandMpnSize(r[i], r[j]) {
      assert r[i] == rows[i];
      if j < |rows| {
        assert r[j] == rows[j];
      }
    }
  }

  /** Two rows of the same brand and size without an MPN are both stored: `NULL`s never clash. */
  lemma NullMpnNeverClashes()
    ensures var a := Component(Some(1), "Trail", "M", None, None, Private);
      var b := Component(Some(1), "Trail", "M", None, None, Public);
      Insert([a], b).Ok?
  {
  }

  /** A second row with the same brand, MPN and size is refused. */
  lemma DuplicateRefused()
    ensures var a := Component(Some(1), "Trail", "M", None, Some("TR-1"), Private);
      var b := Component(Some(1), "Enduro", "M", None, Some("TR-1"), Public);
      Insert([a], b) == Err(DuplicateBrandMpnSize)
  {
    var a := Component(Some(1), "Trail", "M", None, Some("TR-1"), Private);
    var b := Component(Some(1), "Enduro", "M", None, Some("TR-1"), Public);
    assert SameBrandMpnSize([a][0], b);
  }
}
