/**
 * One receipt item on the receipt page: shown as a row with its badges, or
 * opened as a form that saves the edited values, deletes the item, or
 * cancels back to the item's own values.
 *
 * `toString` on numbers is a parameter of the model (`show`), as is
 * `parseFloat`; the database calls are reduced to their error, if any.
 */
module EditItem {
  import opened Wrappers
  import opened Text
  import opened Records
  import opened ItemForm

  /** `n?.toString() || fallback` */
  function NumberText(n: Option<real>, show: real -> string, fallback: string): (r: string)
    ensures n.None? ==> r == fallback
    ensures n.Some? && show(n.value) != "" ==> r == show(n.value)
  {
    if n.Some? && show(n.value) != "" then show(n.value) else fallback
  }

  /** The form's values for an item: its own, with '' for missing texts, '1' and '0' for missing numbers, 'other' for no category. */
  function FieldsOf(item: ReceiptItem, show: real -> string): (f: Fields)
    ensures f.itemName == item.item_name && f.wasOnSale == item.was_on_sale
    ensures f.genericName == TextOr(item.generic_name, "") && f.brand == TextOr(item.brand, "")
    ensures f.variant == TextOr(item.variant, "") && f.size == TextOr(item.size, "") && f.unit == TextOr(item.unit, "")
    ensures f.quantity == NumberText(item.quantity, show, "1")
    ensures f.unitPrice == NumberText(item.unit_price, show, "0")
    ensures f.totalPrice == NumberText(item.total_price, show, "0")
    ensures f.category == TextOr(item.category, "other")
  {
    Fields(
      item.item_name,
      TextOr(item.generic_name, ""), TextOr(item.brand, ""), TextOr(item.variant, ""),
      TextOr(item.size, ""), TextOr(item.unit, ""),
      NumberText(item.quantity, show, "1"),
      NumberText(item.unit_price, show, "0"),
      NumberText(item.total_price, show, "0"),
      item.was_on_sale,
      TextOr(item.category, "other"))
  }

  /** `toString` never gives an empty text, and `parseFloat` reads it back. */
  ghost predicate RoundTrips(show: real -> string, parseFloat: FloatParser)
  {
    && (forall v :: show(v) != "")
    && (forall v :: parseFloat(show(v)) == Some(v))
    && parseFloat("1") == Some(1.0) && parseFloat("0") == Some(0.0)
  }

  /**
   * Saving an item without touching the form writes back its own values:
   * clean text columns unchanged (an empty one as null), the category or
   * 'other', prices or 0, and the quantity or 1 when it was missing or 0.
   */
  lemma SaveUnedited(item: ReceiptItem, show: real -> string, parseFloat: FloatParser)
    requires RoundTrips(show, parseFloat)
    requires Clean(item.generic_name) && Clean(item.brand) && Clean(item.variant) && Clean(item.size) && Clean(item.unit)
    ensures var p := PayloadOf(FieldsOf(item, show), parseFloat);
      && p.item_name == item.item_name
      && p.generic_name == item.generic_name && p.brand == item.brand && p.variant == item.variant
      && p.size == item.size && p.unit == item.unit
      && p.quantity == (if item.quantity.Some? && item.quantity.value != 0.0 then item.quantity.value else 1.0)
      && p.unit_price == AmountOf(item.unit_price) && p.total_price == AmountOf(item.total_price)
      && p.was_on_sale == item.was_on_sale
      && p.category == TextOr(item.category, "other")
  {
    var f := FieldsOf(item, show);
    var p := PayloadOf(f, parseFloat);
    CleanRoundTrip(item.generic_name);
    CleanRoundTrip(item.brand);
    CleanRoundTrip(item.variant);
    CleanRoundTrip(item.size);
    CleanRoundTrip(item.unit);
    NumberRoundTrip(item.quantity, show, parseFloat, "1", 1.0);
    NumberRoundTrip(item.unit_price, show, parseFloat, "0", 0.0);
    NumberRoundTrip(item.total_price, show, parseFloat, "0", 0.0);
  }

  /** A number shown in a field and parsed back is itself, or the default when it was missing or 0. */
  lemma NumberRoundTrip(n: Option<real>, show: real -> string, parseFloat: FloatParser, fallbackText: string, fallback: real)
    requires RoundTrips(show, parseFloat) && parseFloat(fallbackText) == Some(fallback)
    ensures OrNumber(parseFloat(NumberText(n, show, fallbackText)), fallback)
      == if n.Some? && n.value != 0.0 then n.value else fallback
  {
    if n.Some? {
      var v := n.value;
      assert show(v) != "";
      assert parseFloat(show(v)) == Some(v);
    }
  }

  // ---------------------------------------------------------------------------
  // The row

  /** The "(size unit)" note: either part alone, both with a space between, absent when neither is set. */
  function SizeLabel(item: ReceiptItem): (r: Option<string>)
    ensures r.Some? <==> Present(item.size) || Present(item.unit)
    ensures Present(item.size) && Present(item.unit) ==> r == Some("(" + item.size.value + " " + item.unit.value + ")")
    ensures Present(item.size) && !Present(item.unit) ==> r == Some("(" + item.size.value + ")")
    ensures !Present(item.size) && Present(item.unit) ==> r == Some("(" + item.unit.value + ")")
  {
    if !Present(item.size) && !Present(item.unit) then None
    else
      var gap := if Present(item.size) && Present(item.unit) then " " else "";
      var inner := TextOr(item.size, "") + gap + TextOr(item.unit, "");
      assert Present(item.size) && Present(item.unit) ==>
        "(" + inner + ")" == "(" + item.size.value + " " + item.unit.value + ")";
      assert !Present(item.unit) ==> inner == item.size.value;
      assert !Present(item.size) ==> inner == item.unit.value;
      Some("(" + inner + ")")
  }

  /** A coloured badge holding the column's words capitalised, when the column is set. */
  function Badge(s: Option<string>): (r: Option<string>)
    ensures r.Some? <==> Present(s)
    ensures r.Some? ==> |r.value| == |s.value|
    ensures r.Some? ==> r.value == CapitalizeWords(s.value)
  {
    if Present(s) then Some(CapitalizeOrEmpty(s)) else None
  }

  /** The "✓ Matched" badge: receipt text was read and some product field is set. */
  predicate Matched(item: ReceiptItem)
  {
    Present(item.receipt_text) && (Present(item.generic_name) || Present(item.brand) || Present(item.size))
  }

  datatype RowView = RowView(
    name: string,
    sizeLabel: Option<string>,
    brand: Option<string>,
    genericName: Option<string>,
    variant: Option<string>,
    receiptText: Option<string>,
    quantity: Option<real>,
    unitPrice: Option<real>,
    category: Option<string>,
    onSale: bool,
    matched: bool)

  /**
   * The row shown while not editing. A missing or zero quantity and a
   * missing or non-positive unit price get no label; for a value of 0 the
   * page renders a bare `0` instead, which the model does not show.
   */
  function Row(item: ReceiptItem): (v: RowView)
    ensures v.name == item.item_name && v.onSale == item.was_on_sale
    ensures v.sizeLabel == SizeLabel(item) && v.matched == Matched(item)
    ensures v.brand == Badge(item.brand) && v.genericName == Badge(item.generic_name) && v.variant == Badge(item.variant)
    ensures v.receiptText.Some? <==> Present(item.receipt_text)
    ensures v.quantity.Some? <==> item.quantity.Some? && item.quantity.value != 0.0
    ensures v.unitPrice.Some? <==> item.unit_price.Some? && item.unit_price.value > 0.0
    ensures v.category.Some? <==> Present(item.category)
  {
    RowView(
      item.item_name,
      SizeLabel(item),
      Badge(item.brand), Badge(item.generic_name), Badge(item.variant),
      if Present(item.receipt_text) then item.receipt_text else None,
      if item.quantity.Some? && item.quantity.value != 0.0 then item.quantity else None,
      if item.unit_price.Some? && item.unit_price.value > 0.0 then item.unit_price else None,
      if Present(item.category) then item.category else None,
      item.was_on_sale,
      Matched(item))
  }

  /** A matched row always shows the receipt text and at least one of the brand badge, the generic badge or the size note. */
  lemma MatchedShowsEvidence(item: ReceiptItem)
    requires Matched(item)
    ensures var v := Row(item);
      v.receiptText.Some? && (v.brand.Some? || v.genericName.Some? || v.sizeLabel.Some?)
  {
  }

  // ---------------------------------------------------------------------------
  // The form's state

  class Card {
    const item: ReceiptItem
    const show: real -> string
    var isEditing: bool
    var form: Fields
    var showLinkDialog: bool
    var saving: bool
    var deleting: bool
    var error: Option<string>

    /** Closed, with the form holding the item's values. */
    constructor(item: ReceiptItem, show: real -> string)
      ensures this.item == item && this.show == show
      ensures form == FieldsOf(item, show)
      ensures !isEditing && !showLinkDialog && !saving && !deleting && error.None?
    {
      this.item := item;
      this.show := show;
      isEditing := false;
      form := FieldsOf(item, show);
      showLinkDialog := false;
      saving := false;
      deleting := false;
      error := None;
    }

    /** The pencil button opens the form. */
    method Edit()
      modifies this
      ensures isEditing && form == old(form) && error == old(error)
      ensures saving == old(saving) && deleting == old(deleting) && showLinkDialog == old(showLinkDialog)
    {
      isEditing := true;
    }

    /** The link button opens the link dialog; closing it hides it again. */
    method SetLinkDialog(open: bool)
      modifies this
      ensures showLinkDialog == open
      ensures isEditing == old(isEditing) && form == old(form) && error == old(error)
      ensures saving == old(saving) && deleting == old(deleting)
    {
      showLinkDialog := open;
    }

    /** Typing into the inputs. */
    method Input(f: Fields)
      modifies this
      ensures form == f
      ensures isEditing == old(isEditing) && error == old(error) && showLinkDialog == old(showLinkDialog)
      ensures saving == old(saving) && deleting == old(deleting)
    {
      form := f;
    }

    /**
     * Save: writes the normalised form to the item's row. On success the
     * form closes; on failure it stays open showing the error. Either way
     * the form keeps its values and saving ends.
     */
    method Save(parseFloat: FloatParser, updateError: Option<string>) returns (sent: Payload)
      modifies this
      ensures sent == PayloadOf(old(form), parseFloat)
      ensures form == old(form) && !saving && deleting == old(deleting) && showLinkDialog == old(showLinkDialog)
      ensures error == updateError
      ensures isEditing == (updateError.Some? && old(isEditing))
    {
      sent := PayloadOf(form, parseFloat);
      saving := true;
      error := None;
      if updateError.Some? {
        error := updateError;
      } else {
        isEditing := false;
      }
      saving := false;
    }

    /**
     * Delete, after the user confirms. Declining changes nothing. A failure
     * shows the error and ends deleting; on success deleting stays set
     * while the page reloads.
     */
    method Delete(confirmed: bool, deleteError: Option<string>) returns (requested: bool)
      modifies this
      ensures requested == confirmed
      ensures form == old(form) && isEditing == old(isEditing) && saving == old(saving) && showLinkDialog == old(showLinkDialog)
      ensures !confirmed ==> deleting == old(deleting) && error == old(error)
      ensures confirmed ==> error == deleteError && deleting == deleteError.None?
    {
      requested := confirmed;
      if !confirmed {
        return;
      }
      deleting := true;
      error := None;
      if deleteError.Some? {
        error := deleteError;
        deleting := false;
      }
    }

    /** Cancel puts back the item's own values, clears the error and closes the form. */
    method Cancel()
      modifies this
      ensures form == FieldsOf(item, show)
      ensures !isEditing && error.None?
      ensures saving == old(saving) && deleting == old(deleting) && showLinkDialog == old(showLinkDialog)
    {
      form := Fields(
        item.item_name,
        TextOr(item.generic_name, ""), TextOr(item.brand, ""), TextOr(item.variant, ""),
        TextOr(item.size, ""), TextOr(item.unit, ""),
        NumberText(item.quantity, show, "1"),
        NumberText(item.unit_price, show, "0"),
        NumberText(item.total_price, show, "0"),
        item.was_on_sale,
        TextOr(item.category, "other"));
      isEditing := false;
      error := None;
    }
  }
}
