/** Editing the project's tag list and layer table.

    The tag list is a growable list of names. The layer table has a fixed 32
    slots, an empty name marking a free slot; slots 0-4 are the engine's own and
    user layers go in slots 5-30. Every operation returns the edited list along
    with what the source returns. */
module TagsAndLayers {
  import opened Results

  const MinLayerIndex: int := 5
  const MaxTagCount: int := 10000
  const MaxLayerIndex: int := 31
  /** Number of slots in the layer table. */
  const LayerSlots: int := 32

  /** The outcome of an edit: whether it happened, and the list afterwards. */
  datatype Edit = Edit(succeeded: bool, items: seq<string>)

  /** The name a `New…` helper hands back, and the list afterwards. */
  datatype Named = Named(name: string, items: seq<string>)

  /** `char.IsWhiteSpace`: the Unicode space, line and paragraph separators,
      U+0009 to U+000D, and U+0085. */
  predicate IsWhiteSpace(c: char) {
    || c == ' '
    || ('\t' <= c <= '\r')
    || c == '\U{0085}' || c == '\U{00A0}' || c == '\U{1680}'
    || ('\U{2000}' <= c <= '\U{200A}')
    || c == '\U{2028}' || c == '\U{2029}' || c == '\U{202F}' || c == '\U{205F}' || c == '\U{3000}'
  }

  /** `string.IsNullOrWhiteSpace` for a non-null string: empty, or white space only. */
  predicate IsBlank(s: string) {
    forall i :: 0 <= i < |s| ==> IsWhiteSpace(s[i])
  }

  /** `PropertyExists`: whether `value` occurs among items[start..end). */
  function PropertyExists(items: seq<string>, start: int, end: int, value: string): (r: bool)
    requires 0 <= start && end <= |items|
    ensures r <==> exists i :: start <= i < end && items[i] == value
    decreases end - start
  {
    if start >= end then false
    else if items[start] == value then true
    else PropertyExists(items, start + 1, end, value)
  }

  /** The index at which a scan from i first meets `value`, or -1. */
  function FirstIndexOf(items: seq<string>, value: string, i: nat): (k: int)
    requires i <= |items|
    ensures k == -1 <==> (forall j :: i <= j < |items| ==> items[j] != value)
    ensures k != -1 ==> i <= k < |items| && items[k] == value
    ensures k != -1 ==> forall j :: i <= j < k ==> items[j] != value
    decreases |items| - i
  {
    if i == |items| then -1
    else if items[i] == value then i
    else FirstIndexOf(items, value, i + 1)
  }

  /** `value` first occurs in `items` at index k. */
  predicate FirstOccurrence(items: seq<string>, value: string, k: int) {
    0 <= k < |items| && items[k] == value && forall j :: 0 <= j < k ==> items[j] != value
  }

  // ---------------------------------------------------------------------------
  // Tags

  /** `CreateTag`: appends an absent name when fewer than `MaxTagCount` tags exist. */
  function CreateTag(tags: seq<string>, name: string): (r: Edit)
    ensures r.succeeded <==> |tags| < MaxTagCount && name !in tags
    ensures r.succeeded ==> r.items == tags + [name]
    ensures !r.succeeded ==> r.items == tags
  {
    if |tags| >= MaxTagCount then Edit(false, tags)
    else if !PropertyExists(tags, 0, |tags|, name) then Edit(true, tags + [name])
    else Edit(false, tags)
  }

  /** `NewTag`: creates the tag as given, even a blank one, but hands back
      "Untagged" in place of a blank name. */
  function NewTag(tags: seq<string>, name: string): (r: Named)
    ensures r.items == CreateTag(tags, name).items
    ensures IsBlank(name) ==> r.name == "Untagged"
    ensures !IsBlank(name) ==> r.name == name
    ensures IsBlank(name) && |tags| < MaxTagCount && name !in tags ==> r.items[|tags|] == name != r.name
  {
    var created := CreateTag(tags, name);
    var returned := if IsBlank(name) then "Untagged" else name;
    assert !IsWhiteSpace("Untagged"[0]);
    Named(returned, created.items)
  }

  /** `RemoveTag`: deletes the first occurrence of the name, closing the gap. */
  function RemoveTag(tags: seq<string>, name: string): (r: Edit)
    ensures r.succeeded <==> name in tags
    ensures !r.succeeded ==> r.items == tags
    ensures r.succeeded ==> exists k :: FirstOccurrence(tags, name, k) && r.items == tags[..k] + tags[k + 1..]
    ensures r.succeeded ==> multiset(r.items) == multiset(tags) - multiset{name}
  {
    if PropertyExists(tags, 0, |tags|, name) then
      var k := FirstIndexOf(tags, name, 0);
      assert k >= 0;
      assert tags == tags[..k] + [tags[k]] + tags[k + 1..];
      Edit(true, tags[..k] + tags[k + 1..])
    else Edit(false, tags)
  }

  /** Creating an absent tag and then removing it restores the list. */
  lemma TagRoundTrip(tags: seq<string>, name: string)
    requires |tags| < MaxTagCount && name !in tags
    ensures RemoveTag(CreateTag(tags, name).items, name) == Edit(true, tags)
  {
  }

  // ---------------------------------------------------------------------------
  // Layers

  /** The lowest free slot at index i or above, below `MaxLayerIndex`, or -1. */
  function FirstEmptySlot(layers: seq<string>, i: int): (k: int)
    requires |layers| == LayerSlots && MinLayerIndex <= i <= MaxLayerIndex
    ensures k == -1 <==> (forall j :: i <= j < MaxLayerIndex ==> layers[j] != "")
    ensures k != -1 ==> i <= k < MaxLayerIndex && layers[k] == ""
    ensures k != -1 ==> forall j :: i <= j < k ==> layers[j] != ""
    decreases MaxLayerIndex - i
  {
    if i == MaxLayerIndex then -1
    else if layers[i] == "" then i
    else FirstEmptySlot(layers, i + 1)
  }

  /** Slot k is the lowest free user slot. */
  predicate LowestFreeSlot(layers: seq<string>, k: int)
    requires |layers| == LayerSlots
  {
    && MinLayerIndex <= k < MaxLayerIndex
    && layers[k] == ""
    && forall j :: MinLayerIndex <= j < k ==> layers[j] != ""
  }

  /** `CreateLayer(name)`: unless the name already occurs in slots 0-30, writes
      it into the lowest free slot among 5-30. Slots 0-4 and 31 are never
      written and no occupied slot is overwritten. */
  function CreateLayer(layers: seq<string>, name: string): (r: Edit)
    requires |layers| == LayerSlots
    ensures |r.items| == LayerSlots
    ensures forall i :: 0 <= i < MinLayerIndex ==> r.items[i] == layers[i]
    ensures r.items[MaxLayerIndex] == layers[MaxLayerIndex]
    ensures forall i :: 0 <= i < LayerSlots && layers[i] != "" ==> r.items[i] == layers[i]
    ensures r.succeeded <==>
      name !in layers[..MaxLayerIndex] && exists j :: MinLayerIndex <= j < MaxLayerIndex && layers[j] == ""
    ensures r.succeeded ==> exists k :: LowestFreeSlot(layers, k) && r.items == layers[k := name]
    ensures !r.succeeded ==> r.items == layers
  {
    if !PropertyExists(layers, 0, MaxLayerIndex, name) then
      var k := FirstEmptySlot(layers, MinLayerIndex);
      if k < 0 then Edit(false, layers)
      else
        assert LowestFreeSlot(layers, k);
        Edit(true, layers[k := name])
    else Edit(false, layers)
  }

  /** `CreateLayer(name, targetIndex)`: writes the name into the target slot only
      when the name does not occur in slots 0-30 and the slot is free. */
  function CreateLayerAt(layers: seq<string>, name: string, targetIndex: int): (r: Edit)
    requires |layers| == LayerSlots && 0 <= targetIndex < LayerSlots
    ensures |r.items| == LayerSlots
    ensures forall i :: 0 <= i < LayerSlots && i != targetIndex ==> r.items[i] == layers[i]
    ensures forall i :: 0 <= i < LayerSlots && layers[i] != "" ==> r.items[i] == layers[i]
    ensures r.succeeded <==> name !in layers[..MaxLayerIndex] && layers[targetIndex] == ""
    ensures r.succeeded ==> r.items == layers[targetIndex := name]
    ensures !r.succeeded ==> r.items == layers
  {
    if !PropertyExists(layers, 0, MaxLayerIndex, name) then
      if layers[targetIndex] != "" then Edit(false, layers)
      else Edit(true, layers[targetIndex := name])
    else Edit(false, layers)
  }

  /** `NewLayer(name)` as written: it attempts the creation only for a BLANK name,
      and always hands the name back unchanged. */
  function NewLayer(layers: seq<string>, name: string): (r: Named)
    requires |layers| == LayerSlots
    ensures r.name == name
    ensures !IsBlank(name) ==> r.items == layers
    ensures IsBlank(name) ==> r.items == CreateLayer(layers, name).items
  {
    if IsBlank(name) then Named(name, CreateLayer(layers, name).items)
    else Named(name, layers)
  }

  /** `NewLayer(name, targetIndex)`: throws unless 5 <= targetIndex <= 31 (so slot
      31 is admitted), then behaves like `NewLayer(name)` aimed at that slot. */
  function NewLayerAt(layers: seq<string>, name: string, targetIndex: int): (r: Result<Named>)
    requires |layers| == LayerSlots
    ensures r.Err? <==> targetIndex < MinLayerIndex || targetIndex > MaxLayerIndex
    ensures r.Err? ==> r.error == IndexOutOfRange(targetIndex)
    ensures r.Ok? ==> r.value.name == name
    ensures r.Ok? && !IsBlank(name) ==> r.value.items == layers
    ensures r.Ok? && IsBlank(name) ==> r.value.items == CreateLayerAt(layers, name, targetIndex).items
  {
    if targetIndex < MinLayerIndex || targetIndex > MaxLayerIndex then Err(IndexOutOfRange(targetIndex))
    else if IsBlank(name) then Ok(Named(name, CreateLayerAt(layers, name, targetIndex).items))
    else Ok(Named(name, layers))
  }

  /** `RemoveLayer`: empties the first slot holding the name; the table keeps its
      size and every other slot. */
  function RemoveLayer(layers: seq<string>, name: string): (r: Edit)
    ensures |r.items| == |layers|
    ensures r.succeeded <==> name in layers
    ensures !r.succeeded ==> r.items == layers
    ensures r.succeeded ==> exists k :: FirstOccurrence(layers, name, k) && r.items == layers[k := ""]
  {
    if PropertyExists(layers, 0, |layers|, name) then
      var k := FirstIndexOf(layers, name, 0);
      assert k >= 0;
      assert FirstOccurrence(layers, name, k);
      Edit(true, layers[k := ""])
    else Edit(false, layers)
  }

  /** A successful `CreateLayer` is undone by removing the same name. */
  lemma LayerRoundTrip(layers: seq<string>, name: string)
    requires |layers| == LayerSlots
    requires CreateLayer(layers, name).succeeded
    ensures RemoveLayer(CreateLayer(layers, name).items, name) == Edit(true, layers)
  {
    var grown := CreateLayer(layers, name).items;
    var k :| LowestFreeSlot(layers, k) && grown == layers[k := name];
    assert forall j :: 0 <= j < k ==> grown[j] != name by {
      forall j | 0 <= j < k ensures grown[j] != name {
        assert layers[..MaxLayerIndex][j] == layers[j];
      }
    }
    assert FirstOccurrence(grown, name, k);
    var r := RemoveLayer(grown, name);
    var m :| FirstOccurrence(grown, name, m) && r.items == grown[m := ""];
    assert m == k;
  }

  /** A successful `CreateLayer(name, targetIndex)` is undone by removing the same name. */
  lemma LayerAtRoundTrip(layers: seq<string>, name: string, targetIndex: int)
    requires |layers| == LayerSlots && 0 <= targetIndex < LayerSlots
    requires CreateLayerAt(layers, name, targetIndex).succeeded
    ensures RemoveLayer(CreateLayerAt(layers, name, targetIndex).items, name) == Edit(true, layers)
  {
    var grown := layers[targetIndex := name];
    assert forall j :: 0 <= j < targetIndex ==> grown[j] != name by {
      forall j | 0 <= j < targetIndex ensures grown[j] != name {
        assert layers[..MaxLayerIndex][j] == layers[j];
      }
    }
    assert FirstOccurrence(grown, name, targetIndex);
    var r := RemoveLayer(grown, name);
    var m :| FirstOccurrence(grown, name, m) && r.items == grown[m := ""];
    assert m == targetIndex;
  }

  /** Creating a layer named "" never changes the table: either some slot below
      31 is free, so "" already exists, or none is, so there is nowhere to put
      it; and a targeted write of "" goes only into a slot that is already "".
      Hence `NewLayer` is a no-op for the empty name. */
  lemma EmptyLayerNameChangesNothing(layers: seq<string>, targetIndex: int)
    requires |layers| == LayerSlots && 0 <= targetIndex < LayerSlots
    ensures CreateLayer(layers, "").items == layers
    ensures CreateLayerAt(layers, "", targetIndex).items == layers
    ensures NewLayer(layers, "").items == layers
  {
  }

  // ---------------------------------------------------------------------------
  // Corrected layer creation

  /** `CreateLayer(name)` with the duplicate check over the whole table,
      slot 31 included. */
  function CreateLayerUnique(layers: seq<string>, name: string): (r: Edit)
    requires |layers| == LayerSlots
    ensures |r.items| == LayerSlots
    ensures name in layers ==> r == Edit(false, layers)
    ensures r.succeeded <==> name !in layers && exists j :: MinLayerIndex <= j < MaxLayerIndex && layers[j] == ""
    ensures !r.succeeded ==> r.items == layers
    ensures r.succeeded ==> exists k :: LowestFreeSlot(layers, k) && r.items == layers[k := name]
    ensures r.succeeded ==> forall i, j :: 0 <= i < j < LayerSlots ==> !(r.items[i] == name && r.items[j] == name)
  {
    if !PropertyExists(layers, 0, LayerSlots, name) then
      assert name !in layers by {
        forall i | 0 <= i < |layers| ensures layers[i] != name {}
      }
      var k := FirstEmptySlot(layers, MinLayerIndex);
      if k < 0 then Edit(false, layers)
      else
        assert LowestFreeSlot(layers, k);
        Edit(true, layers[k := name])
    else Edit(false, layers)
  }

  /** `NewLayer(name)` with the guard the right way round: a non-blank name is
      created (with the whole-table duplicate check), a blank one is not. */
  function NewLayerIntended(layers: seq<string>, name: string): (r: Named)
    requires |layers| == LayerSlots
    ensures r.name == name
    ensures |r.items| == LayerSlots
    ensures IsBlank(name) ==> r.items == layers
    ensures !IsBlank(name) ==> r.items == CreateLayerUnique(layers, name).items
  {
    if !IsBlank(name) then Named(name, CreateLayerUnique(layers, name).items)
    else Named(name, layers)
  }

  /** The corrected `NewLayer` does what its name says: a visible name absent
      from the table lands in a user slot whenever one is free, and then occurs
      exactly once. */
  lemma NewLayerIntendedCreates(layers: seq<string>, name: string)
    requires |layers| == LayerSlots && !IsBlank(name) && name !in layers
    requires exists j :: MinLayerIndex <= j < MaxLayerIndex && layers[j] == ""
    ensures exists k :: MinLayerIndex <= k < MaxLayerIndex && NewLayerIntended(layers, name).items[k] == name
    ensures forall i, j :: 0 <= i < j < LayerSlots ==>
      !(NewLayerIntended(layers, name).items[i] == name && NewLayerIntended(layers, name).items[j] == name)
  {
    var created := CreateLayerUnique(layers, name);
    assert created.succeeded;
    var k :| LowestFreeSlot(layers, k) && created.items == layers[k := name];
    assert NewLayerIntended(layers, name).items == created.items;
    assert MinLayerIndex <= k < MaxLayerIndex && NewLayerIntended(layers, name).items[k] == name;
  }

  /** `CreateLayer(name, targetIndex)` with the duplicate check over the whole
      table, slot 31 included. */
  function CreateLayerAtUnique(layers: seq<string>, name: string, targetIndex: int): (r: Edit)
    requires |layers| == LayerSlots && 0 <= targetIndex < LayerSlots
    ensures |r.items| == LayerSlots
    ensures r.succeeded <==> name !in layers && layers[targetIndex] == ""
    ensures r.succeeded ==> r.items == layers[targetIndex := name]
    ensures !r.succeeded ==> r.items == layers
    ensures r.succeeded ==> forall i, j :: 0 <= i < j < LayerSlots ==> !(r.items[i] == name && r.items[j] == name)
  {
    if !PropertyExists(layers, 0, LayerSlots, name) && layers[targetIndex] == "" then
      assert name !in layers by {
        forall i | 0 <= i < |layers| ensures layers[i] != name {}
      }
      Edit(true, layers[targetIndex := name])
    else Edit(false, layers)
  }

  /** `NewLayer(name, targetIndex)` with the guard the right way round: the same
      range check, then a non-blank name is created in the target slot. */
  function NewLayerAtIntended(layers: seq<string>, name: string, targetIndex: int): (r: Result<Named>)
    requires |layers| == LayerSlots
    ensures r.Err? <==> targetIndex < MinLayerIndex || targetIndex > MaxLayerIndex
    ensures r.Err? ==> r.error == IndexOutOfRange(targetIndex)
    ensures r.Ok? ==> r.value.name == name && |r.value.items| == LayerSlots
    ensures r.Ok? && IsBlank(name) ==> r.value.items == layers
    ensures r.Ok? && !IsBlank(name) ==> r.value.items == CreateLayerAtUnique(layers, name, targetIndex).items
  {
    if targetIndex < MinLayerIndex || targetIndex > MaxLayerIndex then Err(IndexOutOfRange(targetIndex))
    else if !IsBlank(name) then Ok(Named(name, CreateLayerAtUnique(layers, name, targetIndex).items))
    else Ok(Named(name, layers))
  }

  /** The corrected targeted `NewLayer` stores a visible, absent name in a free
      target slot and nowhere else. */
  lemma NewLayerAtIntendedCreates(layers: seq<string>, name: string, targetIndex: int)
    requires |layers| == LayerSlots && MinLayerIndex <= targetIndex <= MaxLayerIndex
    requires !IsBlank(name) && name !in layers && layers[targetIndex] == ""
    ensures NewLayerAtIntended(layers, name, targetIndex) == Ok(Named(name, layers[targetIndex := name]))
  {
  }

  /** A table whose every slot is free. */
  function EmptyTable(): (layers: seq<string>)
    ensures |layers| == LayerSlots
    ensures forall i :: 0 <= i < LayerSlots ==> layers[i] == ""
  {
    seq(LayerSlots, i => "")
  }

  /** `NewLayer` as written ignores a visible name: on a table with slot 5 free,
      `CreateLayer` would store "Water", but `NewLayer("Water")` leaves the table
      as it was, while the corrected version stores it. */
  lemma NewLayerIgnoresVisibleName()
    ensures CreateLayer(EmptyTable(), "Water").succeeded
    ensures NewLayer(EmptyTable(), "Water").items == EmptyTable()
    ensures NewLayerIntended(EmptyTable(), "Water").items[MinLayerIndex] == "Water"
  {
    var layers := EmptyTable();
    assert layers[MinLayerIndex] == "";
    assert "Water" !in layers by {
      forall i | 0 <= i < |layers| ensures layers[i] != "Water" {}
    }
    assert "Water" !in layers[..MaxLayerIndex] by {
      forall i | 0 <= i < MaxLayerIndex ensures layers[..MaxLayerIndex][i] != "Water" {}
    }
    assert !IsBlank("Water") by { assert !IsWhiteSpace("Water"[0]); }
    assert LowestFreeSlot(layers, MinLayerIndex);
  }

  /** The as-written duplicate check skips slot 31, which `NewLayer(name, 31)`
      can fill: with "Water" in slot 31, `CreateLayer("Water")` succeeds and the
      name then occupies two slots; the corrected check refuses. */
  lemma LayerDuplicatedPastSlot30()
    ensures CreateLayer(EmptyTable()[MaxLayerIndex := "Water"], "Water").succeeded
    ensures CreateLayer(EmptyTable()[MaxLayerIndex := "Water"], "Water").items[MinLayerIndex] == "Water"
    ensures CreateLayer(EmptyTable()[MaxLayerIndex := "Water"], "Water").items[MaxLayerIndex] == "Water"
    ensures !CreateLayerUnique(EmptyTable()[MaxLayerIndex := "Water"], "Water").succeeded
  {
  }

  /** The targeted `NewLayer` as written has the same inverted guard: on an empty
      table, `NewLayer("Water", 6)` leaves the table as it was, while the
      corrected version writes slot 6. */
  lemma NewLayerAtIgnoresVisibleName()
    ensures NewLayerAt(EmptyTable(), "Water", 6) == Ok(Named("Water", EmptyTable()))
    ensures NewLayerAtIntended(EmptyTable(), "Water", 6) == Ok(Named("Water", EmptyTable()[6 := "Water"]))
  {
    var layers := EmptyTable();
    assert !IsBlank("Water") by { assert !IsWhiteSpace("Water"[0]); }
    assert "Water" !in layers by {
      forall i | 0 <= i < |layers| ensures layers[i] != "Water" {}
    }
  }

  /** The duplicate is reachable through the as-written entry points alone: on an
      empty table, `NewLayer(" ", 31)` fills slot 31 (the range check admits 31
      and the inverted guard lets a blank name through), and a following
      `NewLayer(" ")` writes " " into slot 5 as well. */
  lemma BlankLayerDuplicatedAsWritten()
    ensures NewLayerAt(EmptyTable(), " ", MaxLayerIndex).Ok?
    ensures
      var first := NewLayerAt(EmptyTable(), " ", MaxLayerIndex).value.items;
      var second := NewLayer(first, " ").items;
      second[MinLayerIndex] == " " && second[MaxLayerIndex] == " "
  {
  }
}
