/**
 * The phase palette (`ColorType`): nine entries, each an index, a header colour
 * for the phase and a fill colour for the phase's nodes. Both lookups scan the
 * table for the entry with the asked index and raise `EnumValueError` when there
 * is none.
 */
module Color {
  import opened Errors

  datatype Entry = Entry(name: string, index: int, phaseColor: string, nodeColor: string)

  const Palette: seq<Entry> := [
    Entry("GREY", 0, "#616161", "#BDBDBD"),
    Entry("TEAL", 1, "#00796B", "#B2DFDB"),
    Entry("RED", 2, "#D32F2F", "#FFCDD2"),
    Entry("INDIGO", 3, "#303F9F", "#C5CAE9"),
    Entry("DEEP_ORANGE", 4, "#E64A19", "#FFCCBC"),
    Entry("GREEN", 5, "#388E3C", "#C8E6C9"),
    Entry("CYAN", 6, "#0097A7", "#B2EBF2"),
    Entry("AMBER", 7, "#FFA000", "#FFECB3"),
    Entry("DEEP_PURPLE", 8, "#512DA8", "#D1C4E9")
  ]

  /** Number of palette entries, hence of phases a render can colour. */
  const Size: nat := 9

  /** The scan `for e in ColorType: if e.value[0] == index: return e`: the first entry with that index. */
  function Find(entries: seq<Entry>, index: int): (r: Result<Entry>)
    ensures r.Ok? <==> exists k :: 0 <= k < |entries| && entries[k].index == index
    ensures r.Ok? ==> exists k :: 0 <= k < |entries| && entries[k] == r.value
                                  && entries[k].index == index
                                  && forall j :: 0 <= j < k ==> entries[j].index != index
    ensures r.Err? ==> r.error == EnumValueError(index)
  {
    if entries == [] then Err(EnumValueError(index))
    else if entries[0].index == index then Ok(entries[0])
    else
      var r := Find(entries[1..], index);
      assert forall k :: 1 <= k < |entries| ==> entries[k] == entries[1..][k - 1];
      r
  }

  /** `get_phase_color_by_index`: the header colour of an entry with that index, or the error of the scan. */
  function PhaseColor(index: int): (r: Result<string>)
    ensures r.Ok? <==> exists k :: 0 <= k < |Palette| && Palette[k].index == index
    ensures r.Ok? ==> exists k :: 0 <= k < |Palette| && Palette[k].index == index && r.value == Palette[k].phaseColor
    ensures r.Err? ==> r.error == EnumValueError(index)
  {
    var e :- Find(Palette, index);
    Ok(e.phaseColor)
  }

  /** `get_phase_node_by_index`: the node fill colour of an entry with that index, or the error of the scan. */
  function NodeColor(index: int): (r: Result<string>)
    ensures r.Ok? <==> exists k :: 0 <= k < |Palette| && Palette[k].index == index
    ensures r.Ok? ==> exists k :: 0 <= k < |Palette| && Palette[k].index == index && r.value == Palette[k].nodeColor
    ensures r.Err? ==> r.error == EnumValueError(index)
  {
    var e :- Find(Palette, index);
    Ok(e.nodeColor)
  }

  /** The palette's indices are 0..8, each in its own position. */
  lemma PaletteIndices()
    ensures |Palette| == Size
    ensures forall k :: 0 <= k < Size ==> Palette[k].index == k
  {
  }

  /** The scan finds entry `index` exactly for the indices 0..8, negatives excluded. */
  lemma FindInPalette(index: int)
    ensures Find(Palette, index) == if 0 <= index < Size then Ok(Palette[index]) else Err(EnumValueError(index))
  {
    PaletteIndices();
    var r := Find(Palette, index);
    if r.Ok? {
      var k :| 0 <= k < |Palette| && Palette[k] == r.value && Palette[k].index == index;
      assert k == index;
    }
  }

  /** The header colour lookup: the second element of entry `index`, an error otherwise. */
  lemma PhaseColorTable(index: int)
    ensures PhaseColor(index).Ok? <==> 0 <= index < Size
    ensures 0 <= index < Size ==> PhaseColor(index) == Ok(Palette[index].phaseColor)
    ensures !(0 <= index < Size) ==> PhaseColor(index) == Err(EnumValueError(index))
  {
    FindInPalette(index);
  }

  /** The node colour lookup: the third element of entry `index`, an error otherwise. */
  lemma NodeColorTable(index: int)
    ensures NodeColor(index).Ok? <==> 0 <= index < Size
    ensures 0 <= index < Size ==> NodeColor(index) == Ok(Palette[index].nodeColor)
    ensures !(0 <= index < Size) ==> NodeColor(index) == Err(EnumValueError(index))
  {
    FindInPalette(index);
  }

  /** Both lookups are defined on exactly the same indices. */
  lemma SameDomain(index: int)
    ensures PhaseColor(index).Ok? <==> NodeColor(index).Ok?
  {
    PhaseColorTable(index);
    NodeColorTable(index);
  }
}
