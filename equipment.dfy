/**
 * The read-only properties of the Python `Equipment` model
 * (backend-python app/models/equipment.py): availability and the primary
 * image of the JSON `images` column.
 */
module EquipmentModel {
  import opened Wrappers
  import LegacyEquipment

  datatype EquipmentStatus = AVAILABLE | RENTED | RESERVED | MAINTENANCE | RETIRED

  /** One entry of the JSON `images` list: an object with a truthy or falsy `isPrimary` and maybe a `url`, or any other JSON value. */
  datatype ImageEntry = ImageObject(primaryFlag: bool, url: Option<string>) | OtherValue

  /** The `images` column: null, a JSON value that is not a list, or a list. */
  datatype ImagesColumn = Null | NotAList | ImageList(entries: seq<ImageEntry>)

  datatype Equipment = Equipment(status: EquipmentStatus, quantityAvailable: int, images: ImagesColumn)

  /** `AttributeError` from calling `.get` on a first entry that is not an object. */
  datatype PropertyError = AttributeError

  /** `is_available`. */
  predicate IsAvailable(e: Equipment)
  {
    e.status == AVAILABLE && e.quantityAvailable > 0
  }

  /** For one unit, the Python and the Node models agree on availability. */
  lemma AvailabilityAgreesWithLegacy(e: Equipment, d: LegacyEquipment.LegacyEquipmentDoc)
    requires (e.status == AVAILABLE) == (d.status == LegacyEquipment.Available)
    requires e.quantityAvailable == d.quantityAvailable
    ensures IsAvailable(e) <==> d.IsAvailable(1)
  {
  }

  /** The first object entry whose `isPrimary` is truthy. */
  function FirstPrimaryEntry(entries: seq<ImageEntry>): (r: Option<nat>)
    ensures r.Some? ==> (r.value < |entries| && entries[r.value].ImageObject? && entries[r.value].primaryFlag
                         && forall j :: 0 <= j < r.value ==> !(entries[j].ImageObject? && entries[j].primaryFlag))
    ensures r.None? ==> forall j :: 0 <= j < |entries| ==> !(entries[j].ImageObject? && entries[j].primaryFlag)
  {
    if entries == [] then None
    else if entries[0].ImageObject? && entries[0].primaryFlag then Some(0)
    else match FirstPrimaryEntry(entries[1..])
      case None => None
      case Some(k) => Some(k + 1)
  }

  /**
   * `primary_image`: the url of the first primary entry, else the url of
   * the first entry, else None; `None` too for a column that is null, empty
   * or not a list.
   */
  function PrimaryImage(e: Equipment): (r: Result<Option<string>, PropertyError>)
    ensures !(e.images.ImageList? && |e.images.entries| > 0) ==> r == Ok(None)
    ensures e.images.ImageList? && |e.images.entries| > 0 ==>
      var entries := e.images.entries;
      match FirstPrimaryEntry(entries)
      case Some(k) => r == Ok(entries[k].url) && k < |entries|
      case None => (entries[0].ImageObject? ==> r == Ok(entries[0].url)) && (entries[0].OtherValue? ==> r.Err?)
  {
    if !e.images.ImageList? || e.images.entries == [] then Ok(None)
    else
      var entries := e.images.entries;
      match FirstPrimaryEntry(entries)
      case Some(k) => Ok(entries[k].url)
      case None => if entries[0].ImageObject? then Ok(entries[0].url) else Err(AttributeError)
  }

  /** A list holding a primary entry names that entry's url, whatever comes after it. */
  lemma PrimaryEntryWins(e: Equipment, k: nat)
    requires e.images.ImageList? && k < |e.images.entries|
    requires e.images.entries[k].ImageObject? && e.images.entries[k].primaryFlag
    requires forall j :: 0 <= j < k ==> !(e.images.entries[j].ImageObject? && e.images.entries[j].primaryFlag)
    ensures PrimaryImage(e) == Ok(e.images.entries[k].url)
  {
    var r := FirstPrimaryEntry(e.images.entries);
    assert r.Some?;
    if r.value < k {
      assert false;
    } else if r.value > k {
      assert false;
    }
  }
}
