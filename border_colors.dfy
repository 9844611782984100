/**
 * The ordered list of three border colours: the palette it is drawn from,
 * the drag-and-drop reordering (two JavaScript `splice` calls) and the
 * random choice of three distinct palette colours.
 */
module BorderColors {
  import opened Optional

  /** A colour as the component stores it: a CSS hex string such as "#88A7FD". */
  type Color = string

  /** The background fill, which doubles as the transparency key on export. */
  const White: Color := "#ffffff"

  /** The colours the component starts with: outer, middle, inner ring. */
  const DefaultColors: seq<Color> := ["#88A7FD", "#EFB646", "#749469"]

  /** The fifteen colours that randomisation picks from. */
  const Palette: seq<Color> := [
    "#88A7FD", "#EFB646", "#749469",
    "#ABD7F6", "#4670DB", "#808CAC", "#FFE3CE",
    "#FF9483", "#BB6400", "#B38D7A", "#FFFB4E",
    "#756927", "#3A8266", "#5BE0A0", "#E7FFC6"
  ]

  const RingCount: nat := 3

  predicate Distinct(s: seq<Color>) {
    forall i, j :: 0 <= i < j < |s| ==> s[i] != s[j]
  }

  /** `s.splice(i, 1)`: the list without its element at index `i`. */
  function Remove(s: seq<Color>, i: nat): (r: seq<Color>)
    requires i < |s|
    ensures |r| == |s| - 1
    ensures forall k :: 0 <= k < |r| ==> r[k] == if k < i then s[k] else s[k + 1]
  {
    s[..i] + s[i + 1..]
  }

  /** `s.splice(i, 0, c)`: the list with `c` inserted so that it sits at index `i`. */
  function Insert(s: seq<Color>, i: nat, c: Color): (r: seq<Color>)
    requires i <= |s|
    ensures |r| == |s| + 1 && r[i] == c
    ensures forall k :: 0 <= k < i ==> r[k] == s[k]
    ensures forall k :: i < k < |r| ==> r[k] == s[k - 1]
  {
    s[..i] + [c] + s[i..]
  }

  /** The reordering a drop performs: take the colour at `from` out and put it back at `to`. */
  function Move(s: seq<Color>, from: nat, to: nat): (r: seq<Color>)
    requires from < |s| && to < |s|
    ensures |r| == |s| && r[to] == s[from]
    ensures multiset(r) == multiset(s)
  {
    var rest := Remove(s, from);
    var r := Insert(rest, to, s[from]);
    assert multiset(s) == multiset(rest) + multiset{s[from]} by {
      assert s == s[..from] + [s[from]] + s[from + 1..];
    }
    assert multiset(r) == multiset(rest) + multiset{s[from]} by {
      assert r == rest[..to] + [s[from]] + rest[to..];
      assert rest == rest[..to] + rest[to..];
    }
    r
  }

  /** Where the element that `Move(s, from, to)` puts at index `k` came from. */
  function MovedFrom(from: nat, to: nat, k: nat): nat {
    if k == to then from
    else if from < to && from <= k < to then k + 1
    else if to < from && to < k <= from then k - 1
    else k
  }

  /** Every element other than the dragged one keeps its relative order. */
  lemma MoveAt(s: seq<Color>, from: nat, to: nat, k: nat)
    requires from < |s| && to < |s| && k < |s|
    ensures MovedFrom(from, to, k) < |s|
    ensures Move(s, from, to)[k] == s[MovedFrom(from, to, k)]
  {
    var rest := Remove(s, from);
    var r := Insert(rest, to, s[from]);
    if k < to {
      assert r[k] == rest[k];
    } else if k > to {
      assert r[k] == rest[k - 1];
    }
  }

  /** Dragging from `a` to `b` and then from `b` back to `a` restores the order. */
  lemma {:induction false} MoveRoundTrip(s: seq<Color>, a: nat, b: nat)
    requires a < |s| && b < |s|
    ensures Move(Move(s, a, b), b, a) == s
  {
    var t := Move(s, a, b);
    var u := Move(t, b, a);
    assert |u| == |s|;
    forall k | 0 <= k < |s|
      ensures u[k] == s[k]
    {
      var j := MovedFrom(b, a, k);
      MoveAt(t, b, a, k);
      MoveAt(s, a, b, j);
      MovedFromInverse(a, b, k);
    }
  }

  /** Undoing a move sends every index back to where it started. */
  lemma MovedFromInverse(a: nat, b: nat, k: nat)
    ensures MovedFrom(a, b, MovedFrom(b, a, k)) == k
  {
  }

  /** A drop never makes two rings share a colour that were distinct before. */
  lemma {:induction false} MovePreservesDistinct(s: seq<Color>, from: nat, to: nat)
    requires from < |s| && to < |s| && Distinct(s)
    ensures Distinct(Move(s, from, to))
  {
    var r := Move(s, from, to);
    forall i, j | 0 <= i < j < |r|
      ensures r[i] != r[j]
    {
      MoveAt(s, from, to, i);
      MoveAt(s, from, to, j);
    }
  }

  /** With fewer than three colours chosen, some palette colour is still free. */
  lemma UnchosenColorExists(chosen: seq<Color>)
    requires |chosen| < 3
    ensures exists c :: c in Palette && c !in chosen
  {
    assert Palette[0] != Palette[1] && Palette[0] != Palette[2] && Palette[1] != Palette[2] by {
      assert Palette[0][1] == '8' && Palette[1][1] == 'E' && Palette[2][1] == '7';
    }
    if |chosen| == 0 {
      assert Palette[0] !in chosen;
    } else if |chosen| == 1 {
      assert Palette[0] !in chosen || Palette[1] !in chosen;
    } else {
      assert Palette[0] !in chosen || Palette[1] !in chosen || Palette[2] !in chosen;
    }
  }

  /**
   * The loop of `randomizeColors`: grow a list until it holds three palette
   * colours, skipping any colour already in it. The random draw is a
   * nondeterministic choice among the palette colours not yet chosen.
   */
  method PickDistinctColors() returns (colors: seq<Color>)
    ensures |colors| == RingCount
    ensures Distinct(colors)
    ensures forall c :: c in colors ==> c in Palette
  {
    colors := [];
    while |colors| < RingCount
      invariant |colors| <= RingCount
      invariant Distinct(colors)
      invariant forall c :: c in colors ==> c in Palette
    {
      UnchosenColorExists(colors);
      var randomColor :| randomColor in Palette && randomColor !in colors;
      colors := colors + [randomColor];
    }
  }

  /** An index that is either unset (`null` in the component) or names one of the three swatches. */
  predicate SwatchIndex(i: Option<nat>) {
    i.Some? ==> i.value < RingCount
  }

  /** The component's colour-order state: the colours and the two drag indices. */
  class ColorOrder {
    var colors: seq<Color>
    var draggedIndex: Option<nat>
    var dragOverIndex: Option<nat>

    ghost predicate Valid()
      reads this
    {
      |colors| == RingCount && SwatchIndex(draggedIndex) && SwatchIndex(dragOverIndex)
    }

    constructor ()
      ensures Valid()
      ensures colors == DefaultColors && draggedIndex == None && dragOverIndex == None
    {
      colors := DefaultColors;
      draggedIndex := None;
      dragOverIndex := None;
    }

    /** `handleDragStart`: remember which swatch is being dragged. */
    method DragStart(index: nat)
      requires Valid() && index < RingCount
      modifies this
      ensures Valid()
      ensures draggedIndex == Some(index)
      ensures colors == old(colors) && dragOverIndex == old(dragOverIndex)
    {
      draggedIndex := Some(index);
    }

    /** `handleDragOver`: remember which swatch the pointer is over. */
    method DragOver(index: nat)
      requires Valid() && index < RingCount
      modifies this
      ensures Valid()
      ensures dragOverIndex == Some(index)
      ensures colors == old(colors) && draggedIndex == old(draggedIndex)
    {
      dragOverIndex := Some(index);
    }

    /**
     * `handleDrop`: with both indices set and different, move the dragged
     * colour to the hovered position; in every case clear both indices.
     */
    method Drop()
      requires Valid()
      modifies this
      ensures Valid()
      ensures draggedIndex == None && dragOverIndex == None
      ensures old(draggedIndex).Some? && old(dragOverIndex).Some?
                && old(draggedIndex) != old(dragOverIndex)
              ==> colors == Move(old(colors), old(draggedIndex).value, old(dragOverIndex).value)
      ensures old(draggedIndex).None? || old(dragOverIndex).None?
                || old(draggedIndex) == old(dragOverIndex)
              ==> colors == old(colors)
      ensures multiset(colors) == multiset(old(colors))
    {
      if draggedIndex.Some? && dragOverIndex.Some? && draggedIndex.value != dragOverIndex.value {
        var newColors := colors;
        var draggedColor := newColors[draggedIndex.value];
        newColors := Remove(newColors, draggedIndex.value);
        newColors := Insert(newColors, dragOverIndex.value, draggedColor);
        colors := newColors;
      }
      draggedIndex := None;
      dragOverIndex := None;
    }

    /** `handleDragEnd`: clear both indices and leave the colours alone. */
    method DragEnd()
      requires Valid()
      modifies this
      ensures Valid()
      ensures draggedIndex == None && dragOverIndex == None
      ensures colors == old(colors)
    {
      draggedIndex := None;
      dragOverIndex := None;
    }

    /** `randomizeColors`: replace the colours by three distinct palette colours. */
    method Randomize()
      requires Valid()
      modifies this
      ensures Valid()
      ensures Distinct(colors) && forall c :: c in colors ==> c in Palette
      ensures draggedIndex == old(draggedIndex) && dragOverIndex == old(dragOverIndex)
    {
      var newColors := PickDistinctColors();
      colors := newColors;
    }
  }
}
