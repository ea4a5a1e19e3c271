/** `Tags`: the list of tag strings attached to a structure or an entity. */
module TagList {

  datatype Tags = Tags(items: seq<string>)
  {
    /** `contains`: a linear scan for an equal tag. */
    function Contains(tag: string): (found: bool)
      ensures found <==> exists i :: 0 <= i < |items| && items[i] == tag
      decreases |items|
    {
      if |items| == 0 then false
      else items[0] == tag || Tags(items[1..]).Contains(tag)
    }

    /** `len`: the number of stored tags, repeated ones included. */
    function Len(): (n: nat)
      ensures n == |items|
    {
      |items|
    }

    /** `iter` and `IntoIterator`: the stored tags, in stored order. */
    function Iter(): (s: seq<string>)
      ensures |s| == |items| && forall i :: 0 <= i < |s| ==> s[i] == items[i]
    {
      items
    }
  }

  lemma EmptyTags(tag: string)
    ensures !Tags([]).Contains(tag) && Tags([]).Len() == 0
  {
  }

  /** Adding a tag that is already present still adds one to the length. */
  lemma LenCountsRepeats(items: seq<string>, tag: string)
    requires Tags(items).Contains(tag)
    ensures Tags(items + [tag]).Len() == Tags(items).Len() + 1
  {
  }

  /** Contains looks at every stored tag. */
  lemma {:induction false} ContainsAfterAppend(items: seq<string>, more: seq<string>, tag: string)
    ensures Tags(items + more).Contains(tag) <==> Tags(items).Contains(tag) || Tags(more).Contains(tag)
  {
    var all := items + more;
    if Tags(all).Contains(tag) {
      var i :| 0 <= i < |all| && all[i] == tag;
      if i >= |items| {
        assert more[i - |items|] == tag;
      }
    }
    if Tags(items).Contains(tag) {
      var i :| 0 <= i < |items| && items[i] == tag;
      assert all[i] == tag;
    }
    if Tags(more).Contains(tag) {
      var i :| 0 <= i < |more| && more[i] == tag;
      assert all[|items| + i] == tag;
    }
  }
}
