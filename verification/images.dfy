/** The photos handed over by the picker, reduced to what the selection logic
    inspects: an opaque identity and the pixel size. */
module Images {

  datatype Image = Image(id: nat, width: int, height: int)

  /** The orientation test of the add pipeline: only images wider than they
      are tall pass; portrait and square images are dropped. */
  predicate IsLandscape(img: Image) {
    img.width > img.height
  }

  /** The images of `xs` that pass the orientation test, in their original order. */
  function Landscapes(xs: seq<Image>): (r: seq<Image>)
    ensures |r| <= |xs|
    ensures forall x :: x in r <==> x in xs && IsLandscape(x)
    decreases |xs|
  {
    if xs == [] then []
    else if IsLandscape(xs[0]) then [xs[0]] + Landscapes(xs[1..])
    else Landscapes(xs[1..])
  }

  /** Filtering distributes over concatenation, so it keeps input order. */
  lemma {:induction false} LandscapesAppend(a: seq<Image>, b: seq<Image>)
    ensures Landscapes(a + b) == Landscapes(a) + Landscapes(b)
    decreases |a|
  {
    if a == [] {
      assert a + b == b;
    } else {
      assert (a + b)[0] == a[0];
      assert (a + b)[1..] == a[1..] + b;
      LandscapesAppend(a[1..], b);
    }
  }

  /** A batch without a landscape image contributes nothing. */
  lemma {:induction false} LandscapesOfPortraits(xs: seq<Image>)
    requires forall i :: 0 <= i < |xs| ==> !IsLandscape(xs[i])
    ensures Landscapes(xs) == []
    decreases |xs|
  {
    if xs != [] {
      LandscapesOfPortraits(xs[1..]);
    }
  }
}
