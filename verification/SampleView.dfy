/** How a stored sample is seen: as the capsule of a body segment sample that the observations merged into it have
    updated one after the other. */
module SampleViews {
  import opened Capsules
  import opened ReuseBounds
  import opened BodySamples
  import opened Histories
  import opened HistoryEnvironments

  function Heads(s: Sample): seq<Point> {
    if s == [] then [] else Heads(s[..|s| - 1]) + s[|s| - 1].heads
  }

  function Tails(s: Sample): seq<Point> {
    if s == [] then [] else Tails(s[..|s| - 1]) + s[|s| - 1].tails
  }

  function CapsuleOf(segment: nat, thickness: real, sqrt: real -> Distance, heads: Box, tails: Box): Option<Capsule> {
    if heads.Box? && tails.Box? then
      Some(Capsule(segment, heads.Centre(), tails.Centre(), Max(heads.CircleRadius(sqrt), tails.CircleRadius(sqrt)),
                   thickness))
    else None
  }

  /** The view of the samples of one segment. */
  function CapsuleView(segment: nat, thickness: real, sqrt: real -> Distance): View {
    (s: Sample) => CapsuleOf(segment, thickness, sqrt, Bounds(Heads(s)), Bounds(Tails(s)))
  }

  /** A sample object updated by the observations has the value that the view shows, and is empty exactly if the view
      shows nothing. */
  method SampleOf(segment: nat, thickness: real, sqrt: real -> Distance, s: Sample) returns (b: BodySegmentSample)
    ensures fresh(b) && b.Valid() && b.heads == Heads(s) && b.tails == Tails(s)
    ensures b.isEmpty <==> CapsuleView(segment, thickness, sqrt)(s).None?
    ensures !b.isEmpty ==>
              b.headCentre.Some? && b.tailCentre.Some? && CapsuleView(segment, thickness, sqrt)(s) == Some(b.Value())
  {
    b := new BodySegmentSample(segment, thickness, sqrt);
    var i := 0;
    while i < |s|
      invariant 0 <= i <= |s| && fresh(b) && b.Valid() && b.heads == Heads(s[..i]) && b.tails == Tails(s[..i])
      invariant b.segment == segment && b.thickness == thickness && b.sqrt == sqrt
    {
      assert s[..i + 1][..i] == s[..i];
      b.Update(s[i].heads, s[i].tails);
      i := i + 1;
    }
    assert s[..i] == s;
    BoundsContain(b.heads);
    BoundsContain(b.tails);
  }
}
