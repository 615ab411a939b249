/**
 * The media section: a category filter over the video projects and one over
 * the photo albums, each driven by a select whose options are "all" followed
 * by the known categories, with their display labels and the message shown
 * when the filtered list is empty.
 */
module Media {
  import opened Wrappers

  /** A video project or photo album, reduced to what the filter reads. */
  datatype MediaItem = MediaItem(id: string, category: Option<string>)

  /** The two lists of the section. */
  datatype Kind = Videos | Albums

  /** The selection every filter starts from and that shows everything. */
  const All: string := "all"

  /** items.filter(item => item.category === selected). */
  function KeepCategory(items: seq<MediaItem>, selected: string): (kept: seq<MediaItem>)
    ensures |kept| <= |items|
    ensures forall x :: x in kept <==> x in items && x.category == Some(selected)
  {
    if items == [] then []
    else
      var front := KeepCategory(items[..|items| - 1], selected);
      var last := items[|items| - 1];
      assert items == items[..|items| - 1] + [last];
      if last.category == Some(selected) then front + [last] else front
  }

  /** filteredVideos / filteredAlbums: everything for "all", else one category. */
  function Filtered(items: seq<MediaItem>, selected: string): (shown: seq<MediaItem>)
    ensures selected == All ==> shown == items
    ensures selected != All ==> shown == KeepCategory(items, selected)
  {
    if selected == All then items else KeepCategory(items, selected)
  }

  /** Filtering a concatenation filters each part in place: the kept items stay in their order. */
  lemma {:induction false} KeepAppend(a: seq<MediaItem>, b: seq<MediaItem>, selected: string)
    ensures KeepCategory(a + b, selected) == KeepCategory(a, selected) + KeepCategory(b, selected)
  {
    if b != [] {
      var b' := b[..|b| - 1];
      KeepAppend(a, b', selected);
      assert (a + b)[..|a + b| - 1] == a + b';
      assert b[..|b| - 1] == b';
    } else {
      assert a + b == a;
    }
  }

  /** Filtering twice by the same category is filtering once. */
  lemma {:induction false} KeepIdempotent(items: seq<MediaItem>, selected: string)
    ensures KeepCategory(KeepCategory(items, selected), selected) == KeepCategory(items, selected)
  {
    if items != [] {
      var front := items[..|items| - 1];
      var last := items[|items| - 1];
      KeepIdempotent(front, selected);
      if last.category == Some(selected) {
        KeepAppend(KeepCategory(front, selected), [last], selected);
        assert KeepCategory([last], selected) == [last] by {
          assert [last][..0] == [];
        }
      }
    }
  }

  /** A filter that matches every item shows the list unchanged. */
  lemma {:induction false} KeepAllMatching(items: seq<MediaItem>, selected: string)
    requires forall x :: x in items ==> x.category == Some(selected)
    ensures KeepCategory(items, selected) == items
  {
    if items != [] {
      var front := items[..|items| - 1];
      assert forall x :: x in front ==> x in items;
      KeepAllMatching(front, selected);
      assert items == front + [items[|items| - 1]];
    }
  }

  /** ["all", ...categories]: the select's option values. */
  function CategoryOptions(categories: seq<string>): (options: seq<string>)
    ensures |options| == |categories| + 1 && options[0] == All
    ensures forall i :: 0 <= i < |categories| ==> options[i + 1] == categories[i]
  {
    [All] + categories
  }

  /** Title of the "all" option of each list. */
  function AllLabel(kind: Kind): string {
    match kind
    case Videos => "All Videos"
    case Albums => "All Albums"
  }

  /** toUpperCase on one ASCII character: a-z become A-Z, anything else is kept. */
  function UpperAscii(ch: char): (u: char)
    ensures 'a' <= ch <= 'z' ==> 'A' <= u <= 'Z' && u as int == ch as int - 32
    ensures !('a' <= ch <= 'z') ==> u == ch
  {
    if 'a' <= ch <= 'z' then (ch as int - 32) as char else ch
  }

  /** category.charAt(0).toUpperCase() + category.slice(1). */
  function Capitalize(s: string): (t: string)
    ensures |t| == |s|
    ensures |s| > 0 ==> t[0] == UpperAscii(s[0]) && t[1..] == s[1..]
  {
    if s == [] then [] else [UpperAscii(s[0])] + s[1..]
  }

  /** Capitalizing a capitalized label changes nothing. */
  lemma CapitalizeIdempotent(s: string)
    ensures Capitalize(Capitalize(s)) == Capitalize(s)
  {
    if s != [] {
      var t := Capitalize(s);
      assert UpperAscii(t[0]) == t[0];
      assert Capitalize(t) == [t[0]] + t[1..];
    }
  }

  /** A label equals its category exactly when the category does not start with a lower-case letter. */
  lemma CapitalizeFixes(s: string)
    ensures Capitalize(s) == s <==> s == [] || !('a' <= s[0] <= 'z')
  {
    if s != [] && 'a' <= s[0] <= 'z' {
      assert Capitalize(s)[0] != s[0];
    }
  }

  /** The text of an option: the list's "All ..." title for "all", else the capitalized category. */
  function OptionLabel(kind: Kind, category: string): (text: string)
    ensures category == All ==> text == AllLabel(kind)
    ensures category != All ==> text == Capitalize(category) && |text| == |category|
  {
    if category == All then AllLabel(kind) else Capitalize(category)
  }

  /** The paragraph under "No videos found" / "No albums found". */
  function EmptyMessage(kind: Kind, selected: string): string {
    if selected == All then
      match kind
      case Videos => "No video projects are configured yet."
      case Albums => "No photo albums are configured yet."
    else
      match kind
      case Videos => "No videos found in the " + selected + " category."
      case Albums => "No albums found in the " + selected + " category."
  }

  /**
   * For "all" the message is fixed per list; for any other selection it is
   * the list's "not found" sentence around the selection, so two different
   * selections give two different messages.
   */
  lemma EmptyMessageCases(kind: Kind, s1: string, s2: string)
    ensures EmptyMessage(Videos, All) == "No video projects are configured yet."
    ensures EmptyMessage(Albums, All) == "No photo albums are configured yet."
    ensures s1 != All ==> EmptyMessage(kind, s1) != EmptyMessage(kind, All)
    ensures s1 != All && s2 != All ==> (EmptyMessage(kind, s1) == EmptyMessage(kind, s2) <==> s1 == s2)
  {
    var pre := if kind == Videos then "No videos found in the " else "No albums found in the ";
    var post := " category.";
    if s1 != All && s2 != All && EmptyMessage(kind, s1) == EmptyMessage(kind, s2) {
      var m1, m2 := EmptyMessage(kind, s1), EmptyMessage(kind, s2);
      assert m1 == pre + s1 + post && m2 == pre + s2 + post;
      assert |s1| == |s2|;
      forall i | 0 <= i < |s1| ensures s1[i] == s2[i] {
        assert m1[|pre| + i] == s1[i] && m2[|pre| + i] == s2[i];
      }
    }
    if s1 != All {
      var m1, m0 := EmptyMessage(kind, s1), EmptyMessage(kind, All);
      assert m1 == pre + s1 + post;
      var at := if kind == Videos then 8 else 3;
      assert m1[at] == pre[at] != m0[at];
    }
  }

  /** The empty state is shown exactly when the filter leaves nothing. */
  predicate ShowsEmptyState(items: seq<MediaItem>, selected: string) {
    |Filtered(items, selected)| == 0
  }

  /** With "all" selected the empty state means the list itself is empty; otherwise no item has the category. */
  lemma EmptyStateMeans(items: seq<MediaItem>, selected: string)
    ensures selected == All ==> (ShowsEmptyState(items, selected) <==> items == [])
    ensures selected != All ==>
      (ShowsEmptyState(items, selected) <==> forall x :: x in items ==> x.category != Some(selected))
  {
    if selected != All && !ShowsEmptyState(items, selected) {
      var kept := KeepCategory(items, selected);
      assert kept[0] in kept;
    }
  }
}
