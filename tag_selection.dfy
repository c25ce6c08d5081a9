/**
 * The tag pickers. The two startup forms cap the selection at five tags; the listing filters
 * toggle with no cap.
 */
module TagSelection {
  /** `tags.filter(t => t !== tag)`. */
  function Without(tags: seq<string>, tag: string): (r: seq<string>)
    ensures |r| <= |tags|
    ensures tag !in r
    ensures forall t :: t in r <==> t in tags && t != tag
    ensures tag !in tags ==> r == tags
  {
    if tags == [] then []
    else (if tags[0] == tag then [] else [tags[0]]) + Without(tags[1..], tag)
  }

  /** The most tags the forms keep. */
  const MaxTags := 5

  /**
   * The forms' `toggleTag`: a selected tag is removed wherever it occurs; another is appended,
   * then the list is cut to its first five.
   */
  function ToggleCapped(selected: seq<string>, tag: string): seq<string> {
    if tag in selected then Without(selected, tag)
    else
      var grown := selected + [tag];
      grown[..if |grown| < MaxTags then |grown| else MaxTags]
  }

  /** The filters' `toggleTag`: remove if present, append if absent. */
  function Toggle(selected: seq<string>, tag: string): seq<string> {
    if tag in selected then Without(selected, tag) else selected + [tag]
  }

  /** Toggling a selected tag removes every occurrence and keeps the others in order. */
  lemma ToggleCappedRemoves(selected: seq<string>, tag: string)
    requires tag in selected
    ensures ToggleCapped(selected, tag) == Without(selected, tag)
    ensures tag !in ToggleCapped(selected, tag)
    ensures forall t :: t in ToggleCapped(selected, tag) <==> t in selected && t != tag
  {
  }

  /**
   * Toggling an unselected tag appends it when fewer than five are selected; with exactly five
   * the list is unchanged, and with more it is cut to its first five.
   */
  lemma ToggleCappedAdds(selected: seq<string>, tag: string)
    requires tag !in selected
    ensures |selected| < MaxTags ==> ToggleCapped(selected, tag) == selected + [tag]
    ensures |selected| == MaxTags ==> ToggleCapped(selected, tag) == selected
    ensures |selected| >= MaxTags ==> ToggleCapped(selected, tag) == selected[..MaxTags]
  {
    if |selected| >= MaxTags {
      assert (selected + [tag])[..MaxTags] == selected[..MaxTags];
    }
  }

  /** The cap holds: a selection of at most five stays at most five, and no toggle makes a longer selection grow. */
  lemma ToggleCappedBound(selected: seq<string>, tag: string)
    ensures |selected| <= MaxTags ==> |ToggleCapped(selected, tag)| <= MaxTags
    ensures |ToggleCapped(selected, tag)| <= if |selected| > MaxTags then |selected| else MaxTags
  {
  }

  /** Selecting an absent tag and toggling it again restores the selection. */
  lemma ToggleCappedTwice(selected: seq<string>, tag: string)
    requires tag !in selected && |selected| < MaxTags
    ensures ToggleCapped(ToggleCapped(selected, tag), tag) == selected
  {
    ToggleCappedAdds(selected, tag);
    WithoutAppended(selected, tag);
  }

  lemma {:induction false} WithoutAppended(tags: seq<string>, tag: string)
    requires tag !in tags
    ensures Without(tags + [tag], tag) == tags
  {
    if tags == [] {
      assert [] + [tag] == [tag];
      assert Without([tag], tag) == [] + Without([], tag);
    } else {
      assert (tags + [tag])[0] == tags[0];
      assert (tags + [tag])[1..] == tags[1..] + [tag];
      WithoutAppended(tags[1..], tag);
      assert tags == [tags[0]] + tags[1..];
    }
  }

  /** The uncapped toggle adds exactly the absent tag, removes exactly the present one, and is its own inverse on absent tags. */
  lemma ToggleFlips(selected: seq<string>, tag: string)
    ensures tag in Toggle(selected, tag) <==> tag !in selected
    ensures forall t :: t != tag ==> (t in Toggle(selected, tag) <==> t in selected)
    ensures tag !in selected ==> Toggle(Toggle(selected, tag), tag) == selected
  {
    if tag !in selected {
      WithoutAppended(selected, tag);
    }
  }
}
