/**
 * The receipt upload card: choosing an image (type and size checked), and
 * the upload that stores the image under the user's folder, creates the
 * receipt row and asks the parse route to read it.
 *
 * The clock, the signed-in user, the storage and database calls and the
 * parse request are parameters; each call is reduced to its error, if any.
 */
module UploadReceipt {
  import opened Wrappers
  import opened Text
  import opened Records

  /** A chosen file: its name, its MIME type and its size in bytes. */
  datatype File = File(name: string, mime: string, size: nat)

  /** 5 MB, the largest size accepted. */
  const MaxSize: nat := 5 * 1024 * 1024

  const NotAnImage: string := "Please select an image file"
  const TooLarge: string := "File size must be less than 5MB"
  const LoginRequired: string := "You must be logged in to upload receipts"
  const ParseFailed: string := "Failed to parse receipt"

  /** Why a file is refused, if it is: the type is checked before the size. */
  function Rejection(f: File): (e: Option<string>)
    ensures e == Some(NotAnImage) <==> !StartsWith(f.mime, "image/")
    ensures e == Some(TooLarge) <==> StartsWith(f.mime, "image/") && f.size > MaxSize
    ensures e.None? <==> StartsWith(f.mime, "image/") && f.size <= 5242880
  {
    if !StartsWith(f.mime, "image/") then Some(NotAnImage)
    else if f.size > MaxSize then Some(TooLarge)
    else None
  }

  // ---------------------------------------------------------------------------
  // The stored file's name

  /**
   * `name.split('.').pop()`: the text after the last '.', or the whole name
   * when it has none. It is a suffix of the name holding no '.', and a '.'
   * comes right before it unless it is the whole name.
   */
  function Extension(name: string): (ext: string)
    ensures |ext| <= |name|
    decreases |name|
  {
    if |name| == 0 || name[|name| - 1] == '.' then []
    else Extension(name[..|name| - 1]) + [name[|name| - 1]]
  }

  /** The extension's characters are the name's last ones, none of them a '.', and a '.' comes right before them unless they are the whole name. */
  lemma {:induction false} ExtensionShape(name: string)
    ensures var ext := Extension(name);
      && (forall k :: 0 <= k < |ext| ==> ext[k] == name[|name| - |ext| + k])
      && (forall k :: |name| - |ext| <= k < |name| ==> name[k] != '.')
      && (|ext| < |name| ==> name[|name| - |ext| - 1] == '.')
    decreases |name|
  {
    if |name| > 0 && name[|name| - 1] != '.' {
      ExtensionShape(name[..|name| - 1]);
    }
  }

  /** A text that `includes` no '.' has no '.' at any position. */
  lemma NoDot(s: string)
    requires !Contains(s, ".")
    ensures forall k :: 0 <= k < |s| ==> s[k] != '.'
  {
    forall k | 0 <= k < |s|
      ensures s[k] != '.'
    {
      if s[k] == '.' {
        ContainsAt(s, ".", k);
      }
    }
  }

  /**
   * The extension is a suffix of the name without '.', preceded by a '.'
   * when the name has one, and the whole name when it has none.
   */
  lemma ExtensionFacts(name: string)
    ensures var ext := Extension(name);
      && |ext| <= |name| && ext == name[|name| - |ext|..]
      && (forall k :: 0 <= k < |ext| ==> ext[k] != '.')
      && (Contains(name, ".") ==> |ext| < |name| && name[|name| - |ext| - 1] == '.')
      && (!Contains(name, ".") ==> ext == name)
  {
    var ext := Extension(name);
    ExtensionShape(name);
    if Contains(name, ".") {
      var p := IndexOf(name, ".").value;
      assert name[p] == '.' by {
        assert "." <= name[p..];
      }
    } else {
      NoDot(name);
    }
  }

  /** Whatever comes before the last '.', the extension is what follows it. */
  lemma {:induction false} ExtensionAfterDot(a: string, b: string)
    requires forall k :: 0 <= k < |b| ==> b[k] != '.'
    ensures Extension(a + "." + b) == b
    decreases |b|
  {
    var s := a + "." + b;
    if b == [] {
      assert s[|s| - 1] == '.';
    } else {
      var init := b[..|b| - 1];
      ExtensionAfterDot(a, init);
      assert s[..|s| - 1] == a + "." + init;
      assert s[|s| - 1] == b[|b| - 1];
      assert init + [b[|b| - 1]] == b;
    }
  }

  function DigitChar(d: nat): (c: char)
    requires d < 10
    ensures '0' <= c <= '9'
  {
    ('0' as int + d) as char
  }

  /** `String(n)` for a whole number: its decimal digits, with no leading zero. */
  function Decimal(n: nat): (r: string)
    ensures |r| > 0
    ensures forall k :: 0 <= k < |r| ==> '0' <= r[k] <= '9'
    ensures n > 0 ==> r[0] != '0'
  {
    if n < 10 then [DigitChar(n)] else Decimal(n / 10) + [DigitChar(n % 10)]
  }

  /** The number a run of decimal digits spells, read from the left. */
  function DigitsValue(r: string): nat
    requires forall k :: 0 <= k < |r| ==> '0' <= r[k] <= '9'
  {
    if r == [] then 0
    else DigitsValue(r[..|r| - 1]) * 10 + (r[|r| - 1] as int - '0' as int)
  }

  /** The printed timestamp reads back as the timestamp. */
  lemma {:induction false} DecimalReadsBack(n: nat)
    ensures DigitsValue(Decimal(n)) == n
  {
    if n >= 10 {
      var d := Decimal(n / 10);
      DecimalReadsBack(n / 10);
      assert (d + [DigitChar(n % 10)])[..|d|] == d;
    }
  }

  /** Two different timestamps never print the same. */
  lemma DecimalInjective(m: nat, n: nat)
    requires Decimal(m) == Decimal(n)
    ensures m == n
  {
    DecimalReadsBack(m);
    DecimalReadsBack(n);
  }

  /** `${userId}/${Date.now()}.${fileExt}` */
  function FileName(userId: string, now: nat, name: string): string
  {
    userId + "/" + Decimal(now) + "." + Extension(name)
  }

  /**
   * The stored name sits in the user's folder and keeps the chosen file's
   * extension: reading the extension of the stored name gives it back.
   */
  lemma FileNameFacts(userId: string, now: nat, name: string)
    ensures userId + "/" <= FileName(userId, now, name)
    ensures Extension(FileName(userId, now, name)) == Extension(name)
  {
    var ext := Extension(name);
    ExtensionFacts(name);
    assert FileName(userId, now, name) == (userId + "/" + Decimal(now)) + "." + ext;
    ExtensionAfterDot(userId + "/" + Decimal(now), ext);
  }

  // ---------------------------------------------------------------------------
  // The card's state

  /** The receipt row created for the upload, before the parse fills it in. */
  datatype Draft = Draft(user_id: string, image_url: string, store_name: string, purchase_date: string, total_amount: real)

  /** `new Date().toISOString().split('T')[0]`: the date part of the timestamp. */
  function DatePart(iso: string): string
  {
    Split(iso, "T")[0]
  }

  /** The error an upload ends with, the steps being tried in order; `None` when every step succeeds. */
  function Failure(user: Option<string>, uploadError: Option<string>, dbError: Option<string>,
                   parseError: Option<Option<string>>): (e: Option<string>)
    ensures e.None? <==> user.Some? && uploadError.None? && dbError.None? && parseError.None?
    ensures user.None? ==> e == Some(LoginRequired)
    ensures user.Some? && uploadError.None? && dbError.None? && parseError.Some? ==>
      e == Some(TextOr(parseError.value, ParseFailed))
  {
    if user.None? then Some(LoginRequired)
    else if uploadError.Some? then uploadError
    else if dbError.Some? then dbError
    else if parseError.Some? then Some(TextOr(parseError.value, ParseFailed))
    else None
  }

  class Card {
    var file: Option<File>
    var preview: Option<string>
    var uploading: bool
    var parsing: bool
    var error: Option<string>

    /** Only a file that passed the checks is ever held. */
    predicate Valid()
      reads this
    {
      file.Some? ==> Rejection(file.value).None?
    }

    /** The card is busy while uploading or parsing. */
    function IsProcessing(): bool
      reads this
    {
      uploading || parsing
    }

    constructor()
      ensures Valid()
      ensures file.None? && preview.None? && !uploading && !parsing && error.None?
    {
      file := None;
      preview := None;
      uploading := false;
      parsing := false;
      error := None;
    }

    /**
     * A file chosen in the picker. No file changes nothing; a refused file
     * only sets the error; an accepted one is held and the error cleared.
     */
    method Choose(selected: Option<File>)
      requires Valid()
      modifies this
      ensures Valid()
      ensures preview == old(preview) && uploading == old(uploading) && parsing == old(parsing)
      ensures selected.None? ==> file == old(file) && error == old(error)
      ensures selected.Some? && Rejection(selected.value).Some? ==>
        file == old(file) && error == Rejection(selected.value)
      ensures selected.Some? && Rejection(selected.value).None? ==> file == selected && error.None?
    {
      if selected.Some? {
        var f := selected.value;
        if !StartsWith(f.mime, "image/") {
          error := Some(NotAnImage);
          return;
        }
        if f.size > 5 * 1024 * 1024 {
          error := Some(TooLarge);
          return;
        }
        file := selected;
        error := None;
      }
    }

    /** The file reader finished: the preview shows the data URL. */
    method PreviewLoaded(dataUrl: string)
      requires Valid()
      modifies this
      ensures Valid()
      ensures preview == Some(dataUrl)
      ensures file == old(file) && error == old(error) && uploading == old(uploading) && parsing == old(parsing)
    {
      preview := Some(dataUrl);
    }

    /**
     * The upload button. Without a file nothing happens. Otherwise the
     * steps run in order: the user, the storage upload under
     * `FileName`, the receipt row, the parse request. The first failure is
     * the error shown and the file stays; success clears the file and the
     * preview. Either way nothing is processing afterwards.
     */
    method Upload(user: Option<string>, now: nat, isoNow: string, publicUrl: string -> string,
                  uploadError: Option<string>, dbError: Option<string>, parseError: Option<Option<string>>)
      returns (stored: Option<string>, created: Option<Draft>)
      requires Valid()
      modifies this
      ensures Valid()
      ensures old(file).None? ==>
        && stored.None? && created.None? && file.None? && preview == old(preview)
        && error == old(error) && uploading == old(uploading) && parsing == old(parsing)
      ensures old(file).Some? ==>
        var failure := Failure(user, uploadError, dbError, parseError);
        && error == failure
        && !uploading
        && parsing == (if user.None? then old(parsing) else false)
        && (user.Some? ==> !IsProcessing())
        && (failure.None? ==> file.None? && preview.None?)
        && (failure.Some? ==> file == old(file) && preview == old(preview))
        && (stored.Some? <==> user.Some?)
        && (user.Some? ==> stored == Some(FileName(user.value, now, old(file).value.name)))
        && (created.Some? <==> user.Some? && uploadError.None?)
        && (created.Some? ==> created == Some(Draft(user.value, publicUrl(stored.value), "Processing...", DatePart(isoNow), 0.0)))
    {
      stored, created := None, None;
      if file.None? {
        return;
      }
      uploading := true;
      error := None;
      if user.None? {
        error := Some(LoginRequired);
        uploading := false;
        return;
      }
      var fileName := FileName(user.value, now, file.value.name);
      stored := Some(fileName);
      if uploadError.Some? {
        error := uploadError;
        uploading := false;
        parsing := false;
        return;
      }
      created := Some(Draft(user.value, publicUrl(fileName), "Processing...", DatePart(isoNow), 0.0));
      if dbError.Some? {
        error := dbError;
        uploading := false;
        parsing := false;
        return;
      }
      uploading := false;
      parsing := true;
      if parseError.Some? {
        error := Some(TextOr(parseError.value, ParseFailed));
        uploading := false;
        parsing := false;
        return;
      }
      file := None;
      preview := None;
      parsing := false;
    }
  }

  /** Exactly 5 MB is accepted; one byte more is refused as too large. */
  lemma SizeBoundary(name: string, mime: string)
    requires StartsWith(mime, "image/")
    ensures Rejection(File(name, mime, 5 * 1024 * 1024)).None?
    ensures Rejection(File(name, mime, 5 * 1024 * 1024 + 1)) == Some(TooLarge)
  {
  }
}
