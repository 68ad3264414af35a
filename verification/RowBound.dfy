/**
 * The serialized-row bound and the page size it gives
 * (src/hw_radar/acquisition/apify/contract.py:290-394, src/hw_radar/acquisition/apify/provider.py:104-158).
 *
 * A schema's properties are priced from the schema alone; a row's serialization is any JSON text of
 * it, string characters escaped or not as section 7 of RFC 8259 allows.
 */
module RowBound {
  import opened Prelude

  const DATASET_PAGE_ENVELOPE_BYTES: nat := 1024
  const STRING_QUOTES_BYTES: nat := 2
  const ESCAPED_CODE_POINT_BYTES: nat := 12
  const NULL_BYTES: nat := 4
  const PROPERTY_OVERHEAD_BYTES: nat := 4
  const PROPERTY_WHITESPACE_BYTES: nat := 32
  const OBJECT_OVERHEAD_BYTES: nat := 34

  // ── Schemas ───────────────────────────────────────────────────────────────

  /** A property's schema; a bound or length the schema leaves out is None. */
  datatype Prop =
    | Text(maxLength: Option<nat>)
    | Const(literal: string)
    | Enum(literals: seq<string>)
    | Integer(minimum: Option<int>, maximum: Option<int>)
    | Null
    | AnyOf(branches: seq<Prop>)
    | Unpriced

  datatype Property = Property(name: string, schema: Prop)

  function DigitCount(n: nat): (d: nat)
    ensures d >= 1
  {
    if n < 10 then 1 else 1 + DigitCount(n / 10)
  }

  /** The length of an integer's shortest decimal form. */
  function DecimalLength(i: int): (d: nat)
    ensures d >= 1
  {
    if i < 0 then 1 + DigitCount(-i) else DigitCount(i)
  }

  function LongestLiteral(literals: seq<string>): nat {
    if literals == [] then 0 else Max(|literals[0]|, LongestLiteral(literals[1..]))
  }

  /** The most bytes a value of this schema can serialize to; None when the schema does not bound it. */
  function ValueBound(p: Prop): Option<nat> {
    match p
    case AnyOf(branches) => if branches == [] then None else LargestBound(branches)
    case Const(literal) => Some(STRING_QUOTES_BYTES + ESCAPED_CODE_POINT_BYTES * |literal|)
    case Enum(literals) =>
      if literals == [] then None else Some(STRING_QUOTES_BYTES + ESCAPED_CODE_POINT_BYTES * LongestLiteral(literals))
    case Text(maxLength) =>
      if maxLength.None? then None else Some(STRING_QUOTES_BYTES + ESCAPED_CODE_POINT_BYTES * maxLength.value)
    case Integer(minimum, maximum) =>
      if minimum.None? || maximum.None? then None
      else Some(Max(DecimalLength(minimum.value), DecimalLength(maximum.value)))
    case Null => Some(NULL_BYTES)
    case Unpriced => None
  }

  function LargestBound(branches: seq<Prop>): Option<nat> {
    if branches == [] then Some(0)
    else
      var first, rest := ValueBound(branches[0]), LargestBound(branches[1..]);
      if first.None? || rest.None? then None else Some(Max(first.value, rest.value))
  }

  /** What one property adds to the bound. */
  function PropertyBound(p: Property): Option<nat> {
    if ValueBound(p.schema).None? then None
    else Some(|p.name| + PROPERTY_OVERHEAD_BYTES + PROPERTY_WHITESPACE_BYTES + ValueBound(p.schema).value)
  }

  /** The bound over a list of properties, each priced as present. */
  function PropertiesBound(properties: seq<Property>): Option<nat> {
    if properties == [] then Some(0)
    else
      var last, front := PropertyBound(properties[|properties| - 1]), PropertiesBound(properties[..|properties| - 1]);
      if last.None? || front.None? then None else Some(front.value + last.value)
  }

  function MaxRowBytes(properties: seq<Property>): Option<nat> {
    if PropertiesBound(properties).None? then None
    else Some(OBJECT_OVERHEAD_BYTES + PropertiesBound(properties).value)
  }

  lemma {:induction false} UnboundedPrefix(properties: seq<Property>, i: nat)
    requires i <= |properties| && PropertiesBound(properties[..i]).None?
    ensures PropertiesBound(properties).None?
  {
    if i == |properties| {
      assert properties[..i] == properties;
    } else {
      assert properties[..|properties| - 1][..i] == properties[..i];
      UnboundedPrefix(properties[..|properties| - 1], i);
    }
  }

  /** Sum the bound property by property; None at the first property it cannot bound. */
  method MaxSerializedRowBytes(properties: seq<Property>) returns (total: Option<nat>)
    ensures total == MaxRowBytes(properties)
  {
    var sum: nat := OBJECT_OVERHEAD_BYTES;
    for i := 0 to |properties|
      invariant PropertiesBound(properties[..i]) == Some(sum - OBJECT_OVERHEAD_BYTES) && sum >= OBJECT_OVERHEAD_BYTES
    {
      var property := properties[i];
      assert properties[..i + 1][..i] == properties[..i];
      var value := ValueBound(property.schema);
      if value.None? {
        UnboundedPrefix(properties, i + 1);
        return None;
      }
      sum := sum + |property.name| + PROPERTY_OVERHEAD_BYTES + PROPERTY_WHITESPACE_BYTES;
      sum := sum + value.value;
    }
    assert properties[..|properties|] == properties;
    total := Some(sum);
  }

  // ── Rows and their serializations ─────────────────────────────────────────

  datatype Value = TextValue(points: seq<nat>) | IntegerValue(i: int) | NullValue

  function CodePoints(s: string): seq<nat> {
    seq(|s|, i requires 0 <= i < |s| => s[i] as nat)
  }

  predicate Conforms(v: Value, p: Prop) {
    match p
    case AnyOf(branches) => ConformsToOne(v, branches)
    case Const(literal) => v == TextValue(CodePoints(literal))
    case Enum(literals) => v.TextValue? && exists l :: l in literals && v.points == CodePoints(l)
    case Text(maxLength) => v.TextValue? && (maxLength.Some? ==> |v.points| <= maxLength.value)
    case Integer(minimum, maximum) =>
      v.IntegerValue? && (minimum.Some? ==> minimum.value <= v.i) && (maximum.Some? ==> v.i <= maximum.value)
    case Null => v.NullValue?
    case Unpriced => true
  }

  predicate ConformsToOne(v: Value, branches: seq<Prop>) {
    branches != [] && (Conforms(v, branches[0]) || ConformsToOne(v, branches[1..]))
  }

  /** How one character is written: itself in UTF-8, a two-character escape, or \u escapes. */
  datatype Escape = Literal | Short | Unicode

  /** Bytes of one code point; a \u escape of one beyond the basic plane is a surrogate pair. */
  function PointBytes(point: nat, escape: Escape): (n: nat)
    ensures 1 <= n <= ESCAPED_CODE_POINT_BYTES
  {
    match escape
    case Literal => if point < 0x80 then 1 else if point < 0x800 then 2 else if point < 0x10000 then 3 else 4
    case Short => 2
    case Unicode => if point < 0x10000 then 6 else 12
  }

  /** A writer's choices: how each character is escaped, and the whitespace around each property and the object. */
  datatype Writer = Writer(escape: (nat, nat) -> Escape, around: nat -> nat, inside: nat)

  /** Bytes of a string's characters, by position. */
  function PointsBytes(points: seq<nat>, w: Writer): (n: nat)
    ensures n <= ESCAPED_CODE_POINT_BYTES * |points|
  {
    if points == [] then 0
    else
      var k := |points| - 1;
      PointsBytes(points[..k], w) + PointBytes(points[k], w.escape(k, points[k]))
  }

  function ValueBytes(v: Value, w: Writer): nat {
    match v
    case TextValue(points) => 2 + PointsBytes(points, w)
    case IntegerValue(i) => DecimalLength(i)
    case NullValue => 4
  }

  /** A row: the value of each property present, by property position; an absent one is None. */
  type Row = seq<Option<Value>>

  predicate RowConforms(row: Row, properties: seq<Property>) {
    |row| == |properties|
    && forall i :: 0 <= i < |row| ==> row[i].Some? ==> Conforms(row[i].value, properties[i].schema)
  }

  function Present(row: Row): nat {
    if row == [] then 0 else Present(row[..|row| - 1]) + if row[|row| - 1].Some? then 1 else 0
  }

  /** Quoted keys, colons, values and the whitespace around them, without the separating commas. */
  function MembersBytes(row: Row, properties: seq<Property>, w: Writer): nat
    requires |row| == |properties|
  {
    if row == [] then 0
    else
      var k := |row| - 1;
      MembersBytes(row[..k], properties[..k], w)
      + if row[k].Some? then |properties[k].name| + 3 + w.around(k) + ValueBytes(row[k].value, w) else 0
  }

  /** The whole object: braces, members and the commas between them. */
  function RowBytes(row: Row, properties: seq<Property>, w: Writer): nat
    requires |row| == |properties|
  {
    2 + w.inside + MembersBytes(row, properties, w) + if Present(row) == 0 then 0 else Present(row) - 1
  }

  /** The whitespace allowance: 32 bytes a property, 32 for the object. */
  ghost predicate WithinAllowance(w: Writer) {
    w.inside <= OBJECT_OVERHEAD_BYTES - 2 && forall k :: w.around(k) <= PROPERTY_WHITESPACE_BYTES
  }

  // ── The bound holds ───────────────────────────────────────────────────────

  lemma {:induction false} DigitsGrow(a: nat, b: nat)
    requires a <= b
    ensures DigitCount(a) <= DigitCount(b)
  {
    if a >= 10 { DigitsGrow(a / 10, b / 10); }
  }

  /** Between two integers no decimal form is longer than the longer of theirs. */
  lemma IntegerFits(i: int, minimum: int, maximum: int)
    requires minimum <= i <= maximum
    ensures DecimalLength(i) <= Max(DecimalLength(minimum), DecimalLength(maximum))
  {
    if i >= 0 { DigitsGrow(i, maximum); } else { DigitsGrow(-i, -minimum); }
  }

  lemma {:induction false} LiteralFits(literals: seq<string>, l: string)
    requires l in literals
    ensures |l| <= LongestLiteral(literals)
  {
    if l != literals[0] {
      assert l in literals[1..];
      LiteralFits(literals[1..], l);
    }
  }

  /** Every conforming value fits its schema's bound, however it is written. */
  lemma {:induction false} ValueFits(v: Value, p: Prop, w: Writer)
    requires Conforms(v, p) && ValueBound(p).Some?
    ensures ValueBytes(v, w) <= ValueBound(p).value
    decreases p
  {
    match p
    case AnyOf(branches) => BranchFits(v, branches, w);
    case Integer(minimum, maximum) => IntegerFits(v.i, minimum.value, maximum.value);
    case Enum(literals) =>
      var l :| l in literals && v.points == CodePoints(l);
      LiteralFits(literals, l);
    case _ =>
  }

  lemma {:induction false} BranchFits(v: Value, branches: seq<Prop>, w: Writer)
    requires ConformsToOne(v, branches) && LargestBound(branches).Some?
    ensures ValueBytes(v, w) <= LargestBound(branches).value
    decreases branches
  {
    if Conforms(v, branches[0]) { ValueFits(v, branches[0], w); } else { BranchFits(v, branches[1..], w); }
  }

  /** A text of n characters beyond the basic plane, and a writer that escapes everything. */
  function Astral(n: nat): seq<nat> {
    seq(n, i => 0x1F600)
  }

  function EscapeAll(): Writer {
    Writer((i: nat, point: nat) => Unicode, (k: nat) => 0, 0)
  }

  lemma {:induction false} AstralBytes(n: nat)
    ensures PointsBytes(Astral(n), EscapeAll()) == 12 * n
  {
    if n > 0 {
      assert Astral(n)[..n - 1] == Astral(n - 1);
      AstralBytes(n - 1);
    }
  }

  /** The bound of a text is attained, each character a surrogate pair of six-byte escapes; and an integer's at one of its ends. */
  lemma ValueBoundIsAttained(n: nat, minimum: int, maximum: int)
    requires minimum <= maximum
    ensures Conforms(TextValue(Astral(n)), Text(Some(n)))
    ensures ValueBound(Text(Some(n))) == Some(ValueBytes(TextValue(Astral(n)), EscapeAll()))
    ensures exists i :: minimum <= i <= maximum && Conforms(IntegerValue(i), Integer(Some(minimum), Some(maximum)))
                        && ValueBound(Integer(Some(minimum), Some(maximum))) == Some(ValueBytes(IntegerValue(i), EscapeAll()))
  {
    AstralBytes(n);
    var p := Integer(Some(minimum), Some(maximum));
    var i := if DecimalLength(minimum) < DecimalLength(maximum) then maximum else minimum;
    assert Conforms(IntegerValue(i), p) && ValueBound(p) == Some(ValueBytes(IntegerValue(i), EscapeAll()));
  }

  lemma {:induction false} MembersFit(row: Row, properties: seq<Property>, w: Writer)
    requires RowConforms(row, properties) && WithinAllowance(w) && PropertiesBound(properties).Some?
    ensures MembersBytes(row, properties, w) + Present(row) <= PropertiesBound(properties).value
  {
    if row != [] {
      var k := |row| - 1;
      MembersFit(row[..k], properties[..k], w);
      if row[k].Some? { ValueFits(row[k].value, properties[k].schema, w); }
    }
  }

  /**
   * For every schema the bound accepts, every conforming row and every way of writing it within the
   * whitespace allowance, the text fits the bound, with the room of one comma to spare when any
   * property is present.
   */
  lemma RowFits(row: Row, properties: seq<Property>, w: Writer)
    requires RowConforms(row, properties) && WithinAllowance(w) && MaxRowBytes(properties).Some?
    ensures RowBytes(row, properties, w) <= MaxRowBytes(properties).value
    ensures Present(row) > 0 ==> RowBytes(row, properties, w) < MaxRowBytes(properties).value
  {
    MembersFit(row, properties, w);
  }

  // ── Pages ─────────────────────────────────────────────────────────────────

  /** How many rows one page may request; None when not even one worst-case row fits. */
  function PageLimit(pageCap: int, maxItemBytes: int): (limit: Option<nat>)
    ensures limit.Some? ==> limit.value >= 1
  {
    if maxItemBytes <= 0 || (pageCap - DATASET_PAGE_ENVELOPE_BYTES) / maxItemBytes < 1 then None
    else Some((pageCap - DATASET_PAGE_ENVELOPE_BYTES) / maxItemBytes)
  }

  function Total(sizes: seq<nat>): nat {
    if sizes == [] then 0 else Total(sizes[..|sizes| - 1]) + sizes[|sizes| - 1]
  }

  lemma {:induction false} TotalFits(sizes: seq<nat>, bound: nat)
    requires bound > 0 && forall s :: s in sizes ==> s < bound
    ensures Total(sizes) + |sizes| <= bound * |sizes|
  {
    if sizes != [] {
      var k := |sizes| - 1;
      assert sizes[k] in sizes && forall s :: s in sizes[..k] ==> s in sizes;
      TotalFits(sizes[..k], bound);
      OneMore(bound, k);
    }
  }

  lemma OneMore(bound: nat, k: nat)
    ensures bound * (k + 1) == bound * k + bound
  {
  }

  /** A page body: brackets, rows, the commas between them, and whitespace between rows. */
  function PageBytes(sizes: seq<nat>, whitespace: nat): nat {
    2 + whitespace + Total(sizes) + if sizes == [] then 0 else |sizes| - 1
  }

  /**
   * A page of at most `page_limit` contract-valid rows fits the page cap, whatever the rows and
   * however they are written: the separating commas are paid by the rows' own slack, so the whole
   * envelope is left for the brackets and the whitespace between rows.
   */
  lemma PageFits(rows: seq<Row>, properties: seq<Property>, writers: seq<Writer>, sizes: seq<nat>, pageCap: int, whitespace: nat)
    requires MaxRowBytes(properties).Some? && PageLimit(pageCap, MaxRowBytes(properties).value).Some?
    requires |rows| == |writers| == |sizes| <= PageLimit(pageCap, MaxRowBytes(properties).value).value
    requires forall i :: 0 <= i < |rows| ==>
               RowConforms(rows[i], properties) && Present(rows[i]) > 0 && WithinAllowance(writers[i])
               && sizes[i] == RowBytes(rows[i], properties, writers[i])
    requires whitespace <= DATASET_PAGE_ENVELOPE_BYTES - 2
    ensures PageBytes(sizes, whitespace) <= pageCap
  {
    var bound := MaxRowBytes(properties).value;
    forall s | s in sizes ensures s < bound {
      var i :| 0 <= i < |sizes| && sizes[i] == s;
      RowFits(rows[i], properties, writers[i]);
    }
    TotalFits(sizes, bound);
    LimitFits(pageCap, bound, |sizes|);
  }

  lemma LimitFits(pageCap: int, bound: nat, n: nat)
    requires PageLimit(pageCap, bound).Some? && n <= PageLimit(pageCap, bound).value
    ensures bound * n + DATASET_PAGE_ENVELOPE_BYTES <= pageCap
  {
    var room := pageCap - DATASET_PAGE_ENVELOPE_BYTES;
    var limit := room / bound;
    assert room == limit * bound + room % bound;
    assert (limit - n) * bound >= 0;
  }

  /** And the limit is the largest that fits: one more worst-case row would not, and none is given only when not even one does. */
  lemma LimitIsLargest(pageCap: int, maxItemBytes: int)
    requires maxItemBytes > 0
    ensures var limit := PageLimit(pageCap, maxItemBytes);
            && (limit.Some? ==>
                  && limit.value * maxItemBytes + DATASET_PAGE_ENVELOPE_BYTES <= pageCap
                  && (limit.value + 1) * maxItemBytes + DATASET_PAGE_ENVELOPE_BYTES > pageCap)
            && (limit.None? <==> maxItemBytes + DATASET_PAGE_ENVELOPE_BYTES > pageCap)
  {
    var room := pageCap - DATASET_PAGE_ENVELOPE_BYTES;
    var n := room / maxItemBytes;
    assert room == n * maxItemBytes + room % maxItemBytes;
    assert (n + 1) * maxItemBytes == n * maxItemBytes + maxItemBytes;
    if n >= 1 { assert (n - 1) * maxItemBytes >= 0; }
    if n <= 0 { assert (0 - n) * maxItemBytes >= 0; }
  }

  // ── The listing row ───────────────────────────────────────────────────────

  const SLUG_MAX: nat := 50
  const SCOPE_KEY_MAX: nat := 100

  function Decimal(): Prop { Text(Some(14)) }

  function OrNull(p: Prop): Prop { AnyOf([p, Null]) }

  /** hw-radar-listing/v1. */
  function ListingProperties(): seq<Property> {
    [Property("schemaVersion", Const("hw-radar-listing/v1")),
     Property("siteKey", Text(Some(100))),
     Property("sourceListingKey", Text(Some(255))),
     Property("url", Text(Some(1000))),
     Property("title", Text(Some(500))),
     Property("price", Decimal()),
     Property("currency", Text(Some(3))),
     Property("shippingPrice", OrNull(Decimal())),
     Property("stockStatus", Enum(["in_stock", "out_of_stock", "preorder", "unknown"])),
     Property("quantityAvailable", OrNull(Integer(Some(0), Some(1_000_000)))),
     Property("sellerName", OrNull(Text(Some(200)))),
     Property("conditionLabel", OrNull(Text(Some(255)))),
     Property("shipsFromCountry", OrNull(Text(Some(2)))),
     Property("categoryHint", Text(Some(SLUG_MAX))),
     Property("collectionScope", Text(Some(SCOPE_KEY_MAX))),
     Property("mpn", OrNull(Text(Some(100)))),
     Property("observedAt", Text(Some(32)))]
  }

  const MAX_LISTING_ROW_BYTES: nat := 32735

  lemma OrNullBound(p: Prop)
    requires ValueBound(p).Some? && !p.AnyOf?
    ensures ValueBound(OrNull(p)) == Some(Max(ValueBound(p).value, NULL_BYTES))
  {
    assert [p, Null][1..] == [Null] && [Null][1..] == [];
    assert LargestBound([]) == Some(0);
    assert LargestBound([Null]) == Some(NULL_BYTES);
  }

  lemma StockStatusBound()
    ensures ValueBound(Enum(["in_stock", "out_of_stock", "preorder", "unknown"])) == Some(146)
  {
    var l := ["in_stock", "out_of_stock", "preorder", "unknown"];
    assert l[1..] == ["out_of_stock", "preorder", "unknown"] && l[1..][1..] == ["preorder", "unknown"];
    assert ["preorder", "unknown"][1..] == ["unknown"] && ["unknown"][1..] == [];
    assert LongestLiteral(["preorder", "unknown"]) == 8;
    assert LongestLiteral(l) == 12;
  }

  /** What each listing property adds to the bound, in order. */
  function ListingBounds(): seq<nat> {
    [279, 1245, 3114, 12041, 6043, 211, 82, 219, 193, 60, 2448, 3112, 78, 650, 1253, 1241, 432]
  }

  lemma EarlyPropertyBounds(i: nat)
    requires i < 9
    ensures |ListingProperties()| == |ListingBounds()| == 17
    ensures PropertyBound(ListingProperties()[i]) == Some(ListingBounds()[i])
  {
    OrNullBound(Decimal());
    StockStatusBound();
  }

  lemma LatePropertyBounds(i: nat)
    requires 9 <= i < 17
    ensures |ListingProperties()| == |ListingBounds()| == 17
    ensures PropertyBound(ListingProperties()[i]) == Some(ListingBounds()[i])
  {
    assert DigitCount(1_000) == 4;
    assert DigitCount(1_000_000) == 7;
    OrNullBound(Integer(Some(0), Some(1_000_000)));
    OrNullBound(Text(Some(200)));
    OrNullBound(Text(Some(255)));
    OrNullBound(Text(Some(2)));
    OrNullBound(Text(Some(100)));
  }

  lemma ListingPropertyBounds(i: nat)
    requires i < 17
    ensures |ListingProperties()| == |ListingBounds()| == 17
    ensures PropertyBound(ListingProperties()[i]) == Some(ListingBounds()[i])
  {
    if i < 9 { EarlyPropertyBounds(i); } else { LatePropertyBounds(i); }
  }

  lemma {:induction false} SumOfBounds(properties: seq<Property>, bounds: seq<nat>)
    requires |properties| == |bounds| && forall i :: 0 <= i < |bounds| ==> PropertyBound(properties[i]) == Some(bounds[i])
    ensures PropertiesBound(properties) == Some(Total(bounds))
  {
    if bounds != [] {
      var k := |bounds| - 1;
      SumOfBounds(properties[..k], bounds[..k]);
    }
  }

  /** The bound of the committed listing schema is the pinned 32,735 bytes. */
  lemma ListingRowBound()
    ensures MaxRowBytes(ListingProperties()) == Some(MAX_LISTING_ROW_BYTES)
  {
    forall i | 0 <= i < 17 ensures PropertyBound(ListingProperties()[i]) == Some(ListingBounds()[i]) {
      ListingPropertyBounds(i);
    }
    ListingPropertyBounds(0);
    SumOfBounds(ListingProperties(), ListingBounds());
    TotalIsLastPartial(ListingBounds(), ListingPartialSums());
  }

  function ListingPartialSums(): seq<nat> {
    [0, 279, 1524, 4638, 16679, 22722, 22933, 23015, 23234, 23427, 23487, 25935, 29047, 29125, 29775, 31028, 32269, 32701]
  }

  lemma {:induction false} TotalIsLastPartial(sizes: seq<nat>, partial: seq<nat>)
    requires |partial| == |sizes| + 1 && partial[0] == 0
    requires forall k :: 0 <= k < |sizes| ==> partial[k + 1] == partial[k] + sizes[k]
    ensures Total(sizes) == partial[|sizes|]
  {
    if sizes != [] {
      var k := |sizes| - 1;
      TotalIsLastPartial(sizes[..k], partial[..k + 1]);
    }
  }

  // ── Admitting rows ────────────────────────────────────────────────────────

  datatype Rejection = OverByteCap | ContractInvalid | SiteKeyMismatch | ScopeMismatch | NotIngestible

  datatype Verdict = Admitted | Refused(rejection: Rejection)

  /** A contract-valid row: its values, the site and scope it names, and whether it meets the ingest invariants. */
  datatype ContractRow = ContractRow(values: Row, siteKey: string, scope: string, ingestible: bool)

  /** A raw dataset item: an object has a compact ASCII size and, when it meets the contract, a reading. */
  datatype Raw = NotAnObject | Unserializable | Object(compactBytes: nat, reading: Option<ContractRow>)

  /** The compact ASCII writer: no whitespace, and every character beyond ASCII as a \u escape. */
  predicate CompactAscii(w: Writer, row: Row) {
    w.inside == 0 && forall i :: 0 <= i < |row| ==> w.around(i) == 0
  }

  /** A raw item that meets the contract has the size of its compact serialization. */
  ghost predicate Measured(raw: Raw) {
    raw.Object? && raw.reading.Some? ==>
      && RowConforms(raw.reading.value.values, ListingProperties())
      && exists w: Writer :: CompactAscii(w, raw.reading.value.values)
           && raw.compactBytes == RowBytes(raw.reading.value.values, ListingProperties(), w)
  }

  /** Admit a raw item, or say why not, cheapest check first. */
  function ImportRow(raw: Raw, siteKey: string, scopeKey: string, maxItemBytes: nat): Verdict {
    if !raw.Object? then Refused(ContractInvalid)
    else if raw.compactBytes > maxItemBytes then Refused(OverByteCap)
    else if raw.reading.None? then Refused(ContractInvalid)
    else if raw.reading.value.siteKey != siteKey then Refused(SiteKeyMismatch)
    else if raw.reading.value.scope != scopeKey then Refused(ScopeMismatch)
    else if !raw.reading.value.ingestible then Refused(NotIngestible)
    else Admitted
  }

  /** Each refusal is given exactly for its own cause, the cheapest check first. */
  lemma ImportedExactlyWhen(raw: Raw, siteKey: string, scopeKey: string, maxItemBytes: nat)
    ensures var verdict := ImportRow(raw, siteKey, scopeKey, maxItemBytes);
            var sized := raw.Object? && raw.compactBytes <= maxItemBytes;
            var read := sized && raw.reading.Some?;
            && (verdict == Refused(OverByteCap) <==> raw.Object? && raw.compactBytes > maxItemBytes)
            && (verdict == Refused(ContractInvalid) <==> !raw.Object? || (sized && raw.reading.None?))
            && (verdict == Refused(SiteKeyMismatch) <==> read && raw.reading.value.siteKey != siteKey)
            && (verdict == Refused(ScopeMismatch) <==> read && raw.reading.value.siteKey == siteKey && raw.reading.value.scope != scopeKey)
            && (verdict == Refused(NotIngestible) <==>
                  read && raw.reading.value.siteKey == siteKey && raw.reading.value.scope == scopeKey && !raw.reading.value.ingestible)
            && (verdict.Admitted? <==>
                  read && raw.reading.value.siteKey == siteKey && raw.reading.value.scope == scopeKey && raw.reading.value.ingestible)
  {
  }

  lemma {:induction false} AroundOnlyMatters(row: Row, properties: seq<Property>, w: Writer, w': Writer)
    requires |row| == |properties| && w'.escape == w.escape && w'.inside == w.inside
    requires forall i :: 0 <= i < |row| ==> w'.around(i) == w.around(i)
    ensures MembersBytes(row, properties, w') == MembersBytes(row, properties, w)
  {
    if row != [] {
      var k := |row| - 1;
      AroundOnlyMatters(row[..k], properties[..k], w, w');
      if row[k].Some? && row[k].value.TextValue? { EscapesMatter(row[k].value.points, w, w'); }
    }
  }

  lemma {:induction false} EscapesMatter(points: seq<nat>, w: Writer, w': Writer)
    requires w'.escape == w.escape
    ensures PointsBytes(points, w') == PointsBytes(points, w)
  {
    if points != [] { EscapesMatter(points[..|points| - 1], w, w'); }
  }

  /**
   * A contract-valid row is never refused for its size: with the listing bound as the cap it is
   * admitted exactly when it names the run's own site and scope and meets the ingest invariants.
   */
  lemma ValidRowsAreNeverOverCap(raw: Raw, siteKey: string, scopeKey: string)
    requires Measured(raw) && raw.Object? && raw.reading.Some?
    ensures ImportRow(raw, siteKey, scopeKey, MAX_LISTING_ROW_BYTES) != Refused(OverByteCap)
    ensures ImportRow(raw, siteKey, scopeKey, MAX_LISTING_ROW_BYTES).Admitted?
            <==> raw.reading.value.siteKey == siteKey && raw.reading.value.scope == scopeKey && raw.reading.value.ingestible
  {
    var row := raw.reading.value.values;
    var w: Writer :| CompactAscii(w, row) && raw.compactBytes == RowBytes(row, ListingProperties(), w);
    var tight := w.(around := (i: nat) => 0);
    AroundOnlyMatters(row, ListingProperties(), w, tight);
    ListingRowBound();
    RowFits(row, ListingProperties(), tight);
  }
}
