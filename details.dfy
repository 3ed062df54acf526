/**
 * The post-processing in `scrapeDetails`: the text the four CSS selectors
 * yield on an agency's homepage becomes a record. The server variant
 * (server_with_sql.js:57-78) drops a record whose contact is not a mobile
 * number; the index.js variant (index.js:40-66) keeps it with the contact
 * blanked.
 */
module Details {
  import opened Wrappers
  import opened Text

  /** The `.text()` of the name, representative, address and contact selectors. */
  datatype RawFields = RawFields(name: string, representative: string, address: string, contact: string)

  /** An agency record as the scrapers return it. */
  datatype Details = Details(name: string, representative: string, address: string, contact: string)

  /** The label of the lot-number address button, removed from the address text. */
  const AddressLabel: string := "지번주소"

  /** The prefix of a Korean mobile number. */
  const MobilePrefix: string := "010-"

  /** `address.replace(/지번주소/g, '').trim()` (server_with_sql.js:64, index.js:45-46). */
  function NormaliseAddress(raw: string): (a: string)
    ensures Trimmed(a) && |a| <= |raw|
    ensures !Contains(raw, AddressLabel) ==> a == Trim(raw)
  {
    Trim(RemoveAll(raw, AddressLabel))
  }

  /**
   * The first label in an address is removed and the text before it kept;
   * the scan then goes on with the text after the label.
   */
  lemma NormaliseAddressRemovesLabel(x: string, y: string)
    requires forall p :: 0 <= p < |x| ==> !OccursAt(x + AddressLabel, p, AddressLabel)
    ensures NormaliseAddress(x + (AddressLabel + y)) == Trim(x + RemoveAll(y, AddressLabel))
  {
    RemoveAllAt(x, AddressLabel, y);
  }

  /** An address without the label and without surrounding whitespace is kept as it is. */
  lemma CleanAddressUnchanged(raw: string)
    requires !Contains(raw, AddressLabel) && Trimmed(raw)
    ensures NormaliseAddress(raw) == raw
  {
    TrimOfTrimmed(raw);
  }

  /** The address label itself, with spaces around it, normalises to the empty address. */
  lemma LabelOnlyAddress()
    ensures NormaliseAddress(" " + AddressLabel + " ") == ""
  {
    var s := " " + AddressLabel + " ";
    assert s[0] != AddressLabel[0];
    assert s[1..][..|AddressLabel|] == AddressLabel;
    assert s[1..][|AddressLabel|..] == " ";
    assert RemoveAll(s, AddressLabel) == "  ";
  }

  /** A contact the server variant accepts: after trimming it begins with `010-`. */
  predicate Mobile(contact: string)
  {
    StartsWith(Trim(contact), MobilePrefix)
  }

  /**
   * `scrapeDetails` of server_with_sql.js (lines 57-78). `None` as input is a
   * failed fetch or parse; the result is `None` for that and for a contact
   * that does not begin with `010-` once trimmed.
   */
  function ScrapeDetails(page: Option<RawFields>): (d: Option<Details>)
    ensures d.Some? <==> page.Some? && Mobile(page.value.contact)
    ensures d.Some? ==> StartsWith(d.value.contact, MobilePrefix) && Trimmed(d.value.contact)
    ensures d.Some? ==> Trimmed(d.value.address) && d.value.contact == Trim(page.value.contact)
    ensures d.Some? ==> d.value.address == NormaliseAddress(page.value.address)
    ensures d.Some? ==> d.value.name == page.value.name && d.value.representative == page.value.representative
  {
    match page
    case None => None
    case Some(raw) =>
      var contact := Trim(raw.contact);
      if !StartsWith(contact, MobilePrefix) then None
      else Some(Details(raw.name, raw.representative, NormaliseAddress(raw.address), contact))
  }

  /**
   * `scrapeDetails` of index.js (lines 40-66): every fetched page gives a
   * record; a contact that does not begin with `010-` once trimmed is blanked.
   */
  function ScrapeDetailsBlanking(page: Option<RawFields>): (d: Option<Details>)
    ensures d.Some? <==> page.Some?
    ensures d.Some? ==> d.value.contact == "" || (StartsWith(d.value.contact, MobilePrefix) && d.value.contact == Trim(page.value.contact))
    ensures d.Some? ==> (d.value.contact == "" <==> !Mobile(page.value.contact))
    ensures d.Some? ==> Trimmed(d.value.address) && d.value.address == NormaliseAddress(page.value.address)
    ensures d.Some? ==> d.value.name == page.value.name && d.value.representative == page.value.representative
  {
    match page
    case None => None
    case Some(raw) =>
      var address := NormaliseAddress(raw.address);
      var contact := Trim(raw.contact);
      var contact := if !StartsWith(contact, MobilePrefix) then "" else contact;
      Some(Details(raw.name, raw.representative, address, contact))
  }

  /**
   * The two variants agree: the server variant's result is the blanking
   * variant's record when its contact was not blanked, and nothing otherwise.
   */
  lemma VariantsAgree(page: Option<RawFields>)
    ensures ScrapeDetails(page) ==
      var b := ScrapeDetailsBlanking(page);
      if b.Some? && b.value.contact != "" then b else None
  {
  }

  /** A contact that is already trimmed and begins with `010-` is stored exactly as scraped. */
  lemma CleanMobileContactKept(raw: RawFields)
    requires Trimmed(raw.contact) && StartsWith(raw.contact, MobilePrefix)
    ensures ScrapeDetails(Some(raw)) == Some(Details(raw.name, raw.representative, NormaliseAddress(raw.address), raw.contact))
  {
    TrimOfTrimmed(raw.contact);
  }

  /** A page whose contact is empty is dropped by the server variant and blanked by the other. */
  lemma EmptyContactDropped(raw: RawFields)
    requires raw.contact == ""
    ensures ScrapeDetails(Some(raw)).None?
    ensures ScrapeDetailsBlanking(Some(raw)).value.contact == ""
  {
    TrimOfTrimmed(raw.contact);
  }
}
