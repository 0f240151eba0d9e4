/**
 * Colours stored as RGB and presented in OpenCV's BGR order
 * (bettercv/colors.py).
 */
module Colors {
  import opened PyLib

  /** `_reversed_tuple`: the elements in the opposite order. */
  function Reversed<T>(t: seq<T>): (r: seq<T>)
    ensures |r| == |t|
    ensures forall i :: 0 <= i < |t| ==> r[i] == t[|t| - 1 - i]
  {
    if t == [] then [] else Reversed(t[1..]) + [t[0]]
  }

  /** Reversing twice gives back the original tuple. */
  lemma ReversedInvolution<T>(t: seq<T>)
    ensures Reversed(Reversed(t)) == t
  {
    var r := Reversed(Reversed(t));
    assert forall i :: 0 <= i < |t| ==> r[i] == t[i];
  }

  /**
   * A colour. The stored components are in RGB order, as the colour library
   * underneath keeps them; every accessor of this class works in BGR order.
   */
  class Color {
    var rgb: seq<int>

    constructor (rgb: seq<int>)
      ensures this.rgb == rgb
    {
      this.rgb := rgb;
    }

    /** The `bgr` property. */
    function Bgr(): (r: seq<int>)
      reads this
      ensures |r| == |rgb|
      ensures forall i :: 0 <= i < |rgb| ==> r[i] == rgb[|rgb| - 1 - i]
    {
      Reversed(rgb)
    }

    /** The `bgr` setter stores the reversal of the value it is given. */
    method SetBgr(value: seq<int>)
      modifies this
      ensures rgb == Reversed(value)
      ensures Bgr() == value
    {
      rgb := Reversed(value);
      ReversedInvolution(value);
    }

    /** `c[i]`, with Python's negative indices, reads the BGR components. */
    function At(i: int): (r: Result<int>)
      reads this
      ensures r.Ok? <==> -|rgb| <= i < |rgb|
      ensures 0 <= i < |rgb| ==> r == Ok(rgb[|rgb| - 1 - i])
      ensures -|rgb| <= i < 0 ==> r == Ok(rgb[-1 - i])
      ensures r.Err? ==> r.fault == IndexError
    {
      PyIndex(Bgr(), i)
    }

    /** `iter(c)` yields the BGR components, blue first. */
    function Elements(): (r: seq<int>)
      reads this
      ensures |r| == |rgb|
      ensures |rgb| == 3 ==> r == [rgb[2], rgb[1], rgb[0]]
    {
      Bgr()
    }

    /** `len(c)` is 3 whatever is stored; for an RGB triple it counts the BGR elements. */
    function Len(): (n: nat)
      reads this
      ensures n == 3
      ensures |rgb| == 3 ==> n == |Elements()|
    {
      3
    }
  }
}
