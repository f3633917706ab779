/** The view state shown for a selection: which buttons are enabled and the
    screen title. It depends on the number of selected photos only. */
module View {

  import opened Wrappers
  import opened Decimal
  import Selection

  datatype ViewState = ViewState(saveEnabled: bool, clearEnabled: bool, addEnabled: bool, title: string)

  const EmptyTitle: string := "Collage"
  const PhotosSuffix: string := " photos"

  /** The title for a non-empty selection, e.g. "3 photos". */
  function PhotosTitle(count: nat): (t: string)
    ensures |t| > |PhotosSuffix|
    ensures t[|t| - |PhotosSuffix|..] == PhotosSuffix
  {
    NatToString(count) + PhotosSuffix
  }

  /** The view state for a selection of `count` photos. Save needs a positive,
      even count; Clear needs something selected; Add needs room below the limit. */
  function Derive(count: nat): (v: ViewState)
    ensures v.clearEnabled <==> count != 0
    ensures v.addEnabled <==> count < Selection.MaxPhotos
    ensures v.saveEnabled ==> v.clearEnabled
  {
    ViewState(
      count > 0 && count % 2 == 0,
      count > 0,
      count < Selection.MaxPhotos,
      if count > 0 then PhotosTitle(count) else EmptyTitle)
  }

  /** Recovers the photo count from a title; the empty-selection title and any
      other text give None. */
  function CountFromTitle(t: string): (r: Option<nat>)
    ensures r.Some? ==> r.value > 0 && PhotosTitle(r.value) == t
  {
    if |t| > |PhotosSuffix| && t[|t| - |PhotosSuffix|..] == PhotosSuffix then
      match ParseNat(t[..|t| - |PhotosSuffix|])
      case Some(n) =>
        if n > 0 then
          assert t == t[..|t| - |PhotosSuffix|] + PhotosSuffix;
          Some(n)
        else
          None
      case None => None
    else
      None
  }

  /** Within the reachable counts 0..6 Save is enabled for exactly 2, 4 and 6. */
  lemma SaveEnabledCounts(count: nat)
    requires count <= Selection.MaxPhotos
    ensures Derive(count).saveEnabled <==> count in {2, 4, 6}
  {
  }

  /** The title tells the count: "Collage" means nothing is selected, any other
      title reads back as the count it was made from. */
  lemma TitleDeterminesCount(count: nat)
    ensures Derive(count).title == EmptyTitle <==> count == 0
    ensures CountFromTitle(Derive(count).title) == if count == 0 then None else Some(count)
  {
    if count > 0 {
      var t := PhotosTitle(count);
      assert t[|t| - 1] == 's';
      assert t != EmptyTitle;
      assert t[..|t| - |PhotosSuffix|] == NatToString(count);
      ParseNatOfNatToString(count);
    } else {
      assert EmptyTitle[|EmptyTitle| - |PhotosSuffix|..] != PhotosSuffix by {
        assert EmptyTitle[|EmptyTitle| - 1] == 'e';
      }
    }
  }

  /** After Clear the screen shows the initial state: Save and Clear disabled,
      Add enabled, the plain title. */
  lemma ViewAfterClear(s: Selection.Selection)
    ensures Derive(|Selection.Clear(s)|) == ViewState(false, false, true, EmptyTitle)
  {
  }
}
