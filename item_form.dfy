/**
 * What the add-item and edit-item forms have in common: the eleven input
 * values a form holds as text, and the row they are saved as. Text columns
 * are trimmed, with a blank text saved as null; numbers are parsed, with
 * `NaN` and 0 giving way to a default.
 *
 * `parseFloat` is a parameter of the model (`None` stands for `NaN`).
 */
module ItemForm {
  import opened Wrappers
  import opened Text

  type FloatParser = string -> Option<real>

  /** The form's inputs. Numbers are held as typed. */
  datatype Fields = Fields(
    itemName: string,
    genericName: string,
    brand: string,
    variant: string,
    size: string,
    unit: string,
    quantity: string,
    unitPrice: string,
    totalPrice: string,
    wasOnSale: bool,
    category: string)

  /** The columns a save writes. */
  datatype Payload = Payload(
    item_name: string,
    generic_name: Option<string>,
    brand: Option<string>,
    variant: Option<string>,
    size: Option<string>,
    unit: Option<string>,
    quantity: real,
    unit_price: real,
    total_price: real,
    was_on_sale: bool,
    category: string)

  /** `s.trim() || null` */
  function OrNull(s: string): (r: Option<string>)
    ensures r.None? <==> IsBlank(s)
    ensures r.Some? ==> r.value == Trim(s) && r.value != []
  {
    TrimEmptyIffBlank(s);
    if Trim(s) == [] then None else Some(Trim(s))
  }

  /** `parseFloat(s) || fallback`: `NaN` and 0 both give way to the fallback. */
  function OrNumber(parsed: Option<real>, fallback: real): (r: real)
    ensures parsed.Some? && parsed.value != 0.0 ==> r == parsed.value
    ensures parsed.None? || parsed == Some(0.0) ==> r == fallback
  {
    if parsed.Some? && parsed.value != 0.0 then parsed.value else fallback
  }

  /** The saved row: the name as typed, the other texts trimmed or null, the quantity 1 and the prices 0 by default. */
  function PayloadOf(f: Fields, parseFloat: FloatParser): Payload
  {
    Payload(
      f.itemName,
      OrNull(f.genericName), OrNull(f.brand), OrNull(f.variant), OrNull(f.size), OrNull(f.unit),
      OrNumber(parseFloat(f.quantity), 1.0),
      OrNumber(parseFloat(f.unitPrice), 0.0),
      OrNumber(parseFloat(f.totalPrice), 0.0),
      f.wasOnSale,
      f.category)
  }

  /** A saved text column is null or a non-empty text with no whitespace at either end. */
  predicate Clean(s: Option<string>)
  {
    s.None? || (s.value != [] && !IsSpace(s.value[0]) && !IsSpace(s.value[|s.value| - 1]))
  }

  /**
   * Whatever was typed, every optional text column is saved clean (saving
   * it again gives the same text), the quantity is never 0, and a quantity or
   * price that does not parse or parses to 0 falls back to 1 or 0.
   */
  lemma PayloadFacts(f: Fields, parseFloat: FloatParser)
    ensures var p := PayloadOf(f, parseFloat);
      && p.item_name == f.itemName
      && Clean(p.generic_name) && Clean(p.brand) && Clean(p.variant) && Clean(p.size) && Clean(p.unit)
      && p.quantity != 0.0
      && (parseFloat(f.quantity).None? || parseFloat(f.quantity) == Some(0.0) ==> p.quantity == 1.0)
      && (parseFloat(f.unitPrice).None? || parseFloat(f.unitPrice) == Some(0.0) ==> p.unit_price == 0.0)
      && (parseFloat(f.totalPrice).None? || parseFloat(f.totalPrice) == Some(0.0) ==> p.total_price == 0.0)
      && (IsBlank(f.genericName) <==> p.generic_name.None?)
      && (p.brand.Some? ==> OrNull(p.brand.value) == p.brand)
  {
    var p := PayloadOf(f, parseFloat);
    if p.brand.Some? {
      TrimOfTrimmed(p.brand.value);
    }
  }

  /** A clean text column survives being shown in a field and saved again; an empty one comes back null. */
  lemma CleanRoundTrip(s: Option<string>)
    requires Clean(s)
    ensures OrNull(if s.Some? then s.value else "") == s
  {
    if s.Some? {
      TrimOfTrimmed(s.value);
    } else {
      TrimEmptyIffBlank("");
    }
  }
}
