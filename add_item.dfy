/**
 * The "+ Add Item" form under a receipt's items: it opens, takes the
 * item's values, refuses a blank name, inserts the normalised row, and
 * goes back to its defaults after a save or a cancel.
 */
module AddItem {
  import opened Wrappers
  import opened Text
  import opened ItemForm

  /** The empty form: no texts, quantity '1', prices '0', not on sale, category 'other'. */
  const Defaults: Fields := Fields("", "", "", "", "", "", "1", "0", "0", false, "other")

  const NameRequired: string := "Item name is required"

  /** The inserted row: the receipt it belongs to and the saved columns. */
  datatype Insert = Insert(receipt_id: string, payload: Payload)

  /** The defaults cannot be saved as they are, and saving them with a name gives quantity 1 and prices 0. */
  lemma DefaultsFacts(name: string, parseFloat: FloatParser)
    requires parseFloat("1") == Some(1.0) && parseFloat("0") == Some(0.0)
    ensures IsBlank(Defaults.itemName)
    ensures var p := PayloadOf(Defaults.(itemName := name), parseFloat);
      && p.item_name == name
      && p.generic_name.None? && p.brand.None? && p.variant.None? && p.size.None? && p.unit.None?
      && p.quantity == 1.0 && p.unit_price == 0.0 && p.total_price == 0.0
      && !p.was_on_sale && p.category == "other"
  {
    var p := PayloadOf(Defaults.(itemName := name), parseFloat);
    assert p.generic_name == OrNull("");
  }

  class Form {
    const receiptId: string
    var isAdding: bool
    var form: Fields
    var saving: bool
    var error: Option<string>

    /** Closed, holding the defaults. */
    constructor(receiptId: string)
      ensures this.receiptId == receiptId
      ensures form == Defaults && !isAdding && !saving && error.None?
    {
      this.receiptId := receiptId;
      isAdding := false;
      form := Defaults;
      saving := false;
      error := None;
    }

    /** The "+ Add Item" button opens the form. */
    method Open()
      modifies this
      ensures isAdding && form == old(form) && saving == old(saving) && error == old(error)
    {
      isAdding := true;
    }

    /** Typing into the inputs. */
    method Input(f: Fields)
      modifies this
      ensures form == f && isAdding == old(isAdding) && saving == old(saving) && error == old(error)
    {
      form := f;
    }

    /**
     * Save. A blank name only sets the error, and nothing is inserted.
     * Otherwise the normalised row is inserted: on success the form goes
     * back to the defaults and closes, on failure it keeps its values and
     * shows the error.
     */
    method Save(parseFloat: FloatParser, insertError: Option<string>) returns (sent: Option<Insert>)
      modifies this
      ensures sent.Some? <==> !IsBlank(old(form).itemName)
      ensures IsBlank(old(form).itemName) ==>
        && error == Some(NameRequired)
        && form == old(form) && isAdding == old(isAdding) && saving == old(saving)
      ensures !IsBlank(old(form).itemName) ==>
        && sent == Some(Insert(receiptId, PayloadOf(old(form), parseFloat)))
        && !saving && error == insertError
        && (insertError.None? ==> form == Defaults && !isAdding)
        && (insertError.Some? ==> form == old(form) && isAdding == old(isAdding))
    {
      TrimEmptyIffBlank(form.itemName);
      if Trim(form.itemName) == [] {
        error := Some(NameRequired);
        return None;
      }
      sent := Some(Insert(receiptId, PayloadOf(form, parseFloat)));
      saving := true;
      error := None;
      if insertError.Some? {
        error := insertError;
      } else {
        form := Fields("", "", "", "", "", "", "1", "0", "0", false, "other");
        isAdding := false;
      }
      saving := false;
    }

    /** Cancel goes back to the defaults, closes the form and clears the error. */
    method Cancel()
      modifies this
      ensures form == Defaults && !isAdding && error.None? && saving == old(saving)
    {
      form := Fields("", "", "", "", "", "", "1", "0", "0", false, "other");
      isAdding := false;
      error := None;
    }
  }
}
