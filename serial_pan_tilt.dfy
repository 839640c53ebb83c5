/** The pan/tilt camera mount on a serial line (lib/serial_pan_tilt.rb). The mount takes one
    command per line, `P<degrees>` or `T<degrees>`, and never answers, so the object keeps
    the last commanded position itself. The serial port is the log `written`. */
module Camera {
  import opened Text

  const HomePan := 90
  const HomeTilt := 90

  /** The line that commands the pan servo. */
  function PanCommand(degrees: int): string
  {
    "P" + IntToString(degrees) + "\n"
  }

  /** The line that commands the tilt servo. */
  function TiltCommand(degrees: int): string
  {
    "T" + IntToString(degrees) + "\n"
  }

  /** How the mount reads one line: the axis letter and the number before the newline. */
  function DecodeCommand(line: string): Option<(char, int)>
  {
    if |line| >= 2 && (line[0] == 'P' || line[0] == 'T') && line[|line| - 1] == '\n'
    then Some((line[0], ToI(line[1..|line| - 1])))
    else None
  }

  /** Each command line carries its axis and exactly the degrees it was built from. */
  lemma CommandRoundTrip(degrees: int)
    ensures DecodeCommand(PanCommand(degrees)) == Some(('P', degrees))
    ensures DecodeCommand(TiltCommand(degrees)) == Some(('T', degrees))
  {
    ToIOfIntToString(degrees);
    var d := IntToString(degrees);
    assert PanCommand(degrees)[1..|PanCommand(degrees)| - 1] == d;
    assert TiltCommand(degrees)[1..|TiltCommand(degrees)| - 1] == d;
  }

  class SerialPanTilt {
    var panPosition: int
    var tiltPosition: int
    /** Every string written to the serial port, oldest first. */
    var written: seq<string>

    /** Opening the port homes the mount: exactly `P90` then `T90` are written. */
    constructor ()
      ensures Position() == (HomePan, HomeTilt)
      ensures written == [PanCommand(HomePan), TiltCommand(HomeTilt)]
    {
      // Ruby starts both positions as nil; `home` below overwrites them before any use.
      panPosition, tiltPosition, written := 0, 0, [];
      new;
      Home();
    }

    method Write(line: string)
      modifies this`written
      ensures written == old(written) + [line]
    {
      written := written + [line];
    }

    method Pan(degrees: int)
      modifies this
      ensures panPosition == degrees && tiltPosition == old(tiltPosition)
      ensures written == old(written) + [PanCommand(degrees)]
    {
      panPosition := degrees;
      Write(PanCommand(panPosition));
    }

    method Tilt(degrees: int)
      modifies this
      ensures tiltPosition == degrees && panPosition == old(panPosition)
      ensures written == old(written) + [TiltCommand(degrees)]
    {
      tiltPosition := degrees;
      Write(TiltCommand(tiltPosition));
    }

    /** Pan first, then tilt; the position is updated without waiting for the mount. */
    method PanTilt(panDegrees: int, tiltDegrees: int)
      modifies this
      ensures Position() == (panDegrees, tiltDegrees)
      ensures written == old(written) + [PanCommand(panDegrees), TiltCommand(tiltDegrees)]
    {
      Pan(panDegrees);
      Tilt(tiltDegrees);
    }

    method Home()
      modifies this
      ensures Position() == (HomePan, HomeTilt)
      ensures written == old(written) + [PanCommand(HomePan), TiltCommand(HomeTilt)]
    {
      PanTilt(HomePan, HomeTilt);
    }

    /** `[pan_position, tilt_position]`; reading it writes nothing. */
    function Position(): (int, int)
      reads this
    {
      (panPosition, tiltPosition)
    }
  }
}
