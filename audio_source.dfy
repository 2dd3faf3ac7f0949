/**
  The per-source record of the phase meter (class AudioSource in
  src/phase-meter-widget.h): a display name, a colour, the latest left and
  right sample windows and an enabled flag. The record's mutex is not part of
  the model; samples are exact reals instead of single-precision floats.
*/
module AudioSources {

  /** A display colour; the core only passes it through. */
  datatype Color = Rgb(red: int, green: int, blue: int)

  /** The value held by one AudioSource record. */
  datatype SourceState = SourceState(
    name: string,
    color: Color,
    leftChannel: seq<real>,
    rightChannel: seq<real>,
    enabled: bool)

  /** The value of a freshly constructed record: no samples yet, enabled. */
  function NewSourceState(name: string, color: Color): (s: SourceState)
    ensures s.name == name && s.color == color && s.enabled
    ensures s.leftChannel == [] && s.rightChannel == []
  {
    SourceState(name, color, [], [], true)
  }

  class AudioSource {
    var name: string
    var color: Color
    var leftChannel: seq<real>
    var rightChannel: seq<real>
    var enabled: bool

    /** The record's five data fields as one value. */
    function State(): SourceState
      reads this
    {
      SourceState(name, color, leftChannel, rightChannel, enabled)
    }

    /** AudioSource(n, c): name and colour given, channels empty, enabled. */
    constructor (n: string, c: Color)
      ensures State() == NewSourceState(n, c)
    {
      name := n;
      color := c;
      leftChannel := [];
      rightChannel := [];
      enabled := true;
    }

    /**
      The move constructor: the new record takes all five fields of `other`.
      The moved-out channel vectors of `other` are left empty; its colour and
      enabled flag are copies and stay.
    */
    constructor FromMoved(other: AudioSource)
      modifies other
      ensures State() == old(other.State())
      ensures other.leftChannel == [] && other.rightChannel == []
      ensures other.color == old(other.color) && other.enabled == old(other.enabled)
    {
      name := other.name;
      color := other.color;
      leftChannel := other.leftChannel;
      rightChannel := other.rightChannel;
      enabled := other.enabled;
      new;
      other.name := "";
      other.leftChannel := [];
      other.rightChannel := [];
    }

    /**
      Move assignment: takes all five fields of a different record, whose
      channel vectors are left empty; a self-move changes nothing.
    */
    method MoveAssign(other: AudioSource)
      modifies this, other
      ensures other == this ==> State() == old(State())
      ensures other != this ==> State() == old(other.State())
      ensures other != this ==> other.leftChannel == [] && other.rightChannel == []
      ensures other != this ==> other.color == old(other.color) && other.enabled == old(other.enabled)
    {
      if this != other {
        var oldName := name;
        name := other.name;
        color := other.color;
        leftChannel := other.leftChannel;
        rightChannel := other.rightChannel;
        enabled := other.enabled;
        other.name := oldName;
        other.leftChannel := [];
        other.rightChannel := [];
      }
    }
  }
}
