/** The drawing kinds (`DrawingType`). The enumeration fixes seven members with
    the integer values 1..7 that travel on the wire; TEXT, UNDO and SYNC are used
    by the controller and the view of a different revision and are reconstructed
    here as kinds without a wire value. */
module DrawingTypes {
  import opened Common

  datatype Kind = Pen | Rect | Oval | Line | Eraser | Clear | Ping
                | Text | Undo | Sync

  /** The kinds that are members of the enumeration, in declaration order. */
  const WireKinds: seq<Kind> := [Pen, Rect, Oval, Line, Eraser, Clear, Ping]

  /** A kind that has an enumeration value (and so can be encoded). */
  predicate HasValue(k: Kind) {
    !(k.Text? || k.Undo? || k.Sync?)
  }

  type WireKind = k: Kind | HasValue(k) witness Pen

  /** `kind.value`. */
  function Value(k: WireKind): (v: int)
    ensures 1 <= v <= |WireKinds| && WireKinds[v - 1] == k
  {
    match k
    case Pen => 1
    case Rect => 2
    case Oval => 3
    case Line => 4
    case Eraser => 5
    case Clear => 6
    case Ping => 7
  }

  /** `DrawingType(v)`: the member with value v, or `None` where the
      enumeration raises `ValueError`. */
  function FromValue(v: int): (r: Option<WireKind>)
    ensures r.Some? <==> 1 <= v <= 7
    ensures r.Some? ==> Value(r.value) == v
  {
    if 1 <= v <= |WireKinds| then Some(WireKinds[v - 1]) else None
  }

  /** `str(kind)`: the display name from the lookup table. */
  function Name(k: WireKind): (s: string)
    ensures |s| > 0
  {
    match k
    case Pen => "Pen"
    case Rect => "Rectangle"
    case Oval => "Oval"
    case Line => "Line"
    case Eraser => "Eraser"
    case Clear => "Clear"
    case Ping => "Ping"
  }

  /** Exactly seven kinds have a value, namely the members of WireKinds, and
      their values are 1..7 in order. */
  lemma SevenMembers()
    ensures |WireKinds| == 7
    ensures forall k: Kind :: HasValue(k) <==> k in WireKinds
    ensures forall i :: 0 <= i < |WireKinds| ==> HasValue(WireKinds[i]) && Value(WireKinds[i]) == i + 1
  {
  }

  lemma ValuesDistinct(a: WireKind, b: WireKind)
    ensures Value(a) == Value(b) <==> a == b
  {
  }

  /** Looking up the value of a kind gives the kind back. */
  lemma FromValueOfValue(k: WireKind)
    ensures FromValue(Value(k)) == Some(k)
  {
  }

  /** Every value in 1..7 is the value of its lookup; nothing else has one. */
  lemma ValueOfFromValue(v: int)
    ensures 1 <= v <= 7 ==> FromValue(v).Some? && Value(FromValue(v).value) == v
    ensures !(1 <= v <= 7) ==> FromValue(v) == None
  {
  }

  lemma NameInjective(a: WireKind, b: WireKind)
    ensures Name(a) == Name(b) <==> a == b
  {
  }
}
