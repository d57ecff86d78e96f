/** The two loops of pf_get_sport over a port range, with their 16-bit variable: from
    the cut up to the range's end, then from below the cut down to its start. */
module PortLoop {
  const PORTS := 0x1_0000

  type Port = x: int | 0 <= x < PORTS

  /** The low and the high end, and where to start. */
  datatype Range = Range(low: Port, high: Port, cut: Port)

  predicate InOrder(r: Range) { r.low < r.high && r.low <= r.cut <= r.high }

  // ++ and -- on the variable.
  function Inc(port: Port): Port { (port + 1) % PORTS }
  function Dec(port: Port): Port { (port - 1) % PORTS }

  // Where the search stands: about to try a port in one of the loops, or at the end.
  datatype Place = Up(port: Port) | Down(port: Port) | Over

  // The loop conditions.
  function Enter(r: Range, at: Place): Place {
    if at.Up? && at.port > r.high then EnterDown(r, Dec(r.cut))
    else if at.Down? then EnterDown(r, at.port)
    else at
  }

  function EnterDown(r: Range, port: Port): Place { if port >= r.low then Down(port) else Over }

  // On to the next port when this one is taken.
  function After(r: Range, at: Place): Place {
    match at
    case Up(port) => Enter(r, Up(Inc(port)))
    case Down(port) => Enter(r, Down(Dec(port)))
    case Over => Over
  }

  /** After n ports, all of them taken. */
  function At(r: Range, n: nat): Place {
    if n == 0 then Enter(r, Up(r.cut)) else After(r, At(r, n - 1))
  }

  // The 16-bit variable does not wrap.
  predicate NoWrap(r: Range) { 0 < r.low && r.high < PORTS - 1 }

  lemma Small(x: int)
    requires 0 <= x < PORTS
    ensures x % PORTS == x
  {
  }

  lemma NextPort(x: int)
    ensures (x % PORTS + 1) % PORTS == (x + 1) % PORTS
    ensures (x % PORTS - 1) % PORTS == (x - 1) % PORTS
  {
  }

  lemma AtNext(r: Range, n: nat)
    ensures At(r, n + 1) == After(r, At(r, n))
  {
  }

  // In the first loop; for good if the range ends at 65535.
  lemma {:induction false} AtUp(r: Range, n: nat)
    requires InOrder(r) && (n <= r.high - r.cut || r.high == PORTS - 1)
    ensures At(r, n) == Up((r.cut + n) % PORTS)
  {
    hide At;
    if n > 0 {
      AtUp(r, n - 1);
      AtNext(r, n - 1);
      NextPort(r.cut + n - 1);
      if r.high < PORTS - 1 {
        Small(r.cut + n);
      }
    } else {
      Small(r.cut);
      assert At(r, 0) == Up(r.cut) by { AtStart(r); }
    }
  }

  lemma AtStart(r: Range)
    requires InOrder(r)
    ensures At(r, 0) == Up(r.cut)
  {
  }

  // The step from the first loop to the second.
  lemma UpToDown(r: Range)
    requires InOrder(r) && r.high < PORTS - 1
    ensures At(r, r.high - r.cut + 1) == EnterDown(r, Dec(r.cut))
  {
    hide At;
    AtUp(r, r.high - r.cut);
    Small(r.high);
    AtNext(r, r.high - r.cut);
    Small(r.high + 1);
  }

  // In the second; for good if the range starts at 0.
  lemma {:induction false} AtDown(r: Range, n: nat)
    requires InOrder(r) && r.high < PORTS - 1 && (n < r.cut - r.low || r.low == 0)
    ensures At(r, r.high - r.cut + 1 + n) == Down((r.cut - 1 - n) % PORTS)
  {
    hide At;
    if r.low > 0 {
      Small(r.cut - 1 - n);
    }
    if n == 0 {
      UpToDown(r);
    } else {
      AtDown(r, n - 1);
      AtNext(r, r.high - r.cut + n);
      NextPort(r.cut - n);
    }
  }

  // The end.
  lemma AtEnd(r: Range)
    requires InOrder(r) && NoWrap(r)
    ensures At(r, r.high - r.low + 1) == Over
  {
    hide At;
    if r.cut == r.low {
      UpToDown(r);
      Small(r.cut - 1);
    } else {
      AtDown(r, r.cut - r.low - 1);
      Small(r.low);
      AtNext(r, r.high - r.low);
      Small(r.low - 1);
    }
  }

  lemma {:induction false} StaysOver(r: Range, n: nat, m: nat)
    requires At(r, n) == Over && n <= m
    ensures At(r, m) == Over
    decreases m
  {
    if n < m {
      StaysOver(r, n, m - 1);
    }
  }

  // The loops step by step.
  lemma StepUp(r: Range, port: Port)
    ensures port <= r.high ==> Enter(r, Up(port)) == Up(port) && After(r, Up(port)) == Enter(r, Up(Inc(port)))
    ensures port > r.high ==> Enter(r, Up(port)) == EnterDown(r, Dec(r.cut))
  {
  }

  lemma StepDown(r: Range, port: Port)
    ensures port >= r.low ==> EnterDown(r, port) == Down(port) && After(r, Down(port)) == EnterDown(r, Dec(port))
    ensures port < r.low ==> EnterDown(r, port) == Over
  {
  }

  // Which place tries a port when the variable wraps.
  function PlaceOf(r: Range, port: Port): nat
    requires InOrder(r)
  {
    if r.high == PORTS - 1 then (port - r.cut) % PORTS else r.high - r.cut + 1 + (r.cut - 1 - port) % PORTS
  }

  lemma PlaceOfTries(r: Range, port: Port)
    requires InOrder(r) && !NoWrap(r)
    ensures At(r, PlaceOf(r, port)) == if r.high == PORTS - 1 then Up(port) else Down(port)
  {
    hide At;
    if r.high == PORTS - 1 {
      AtUp(r, (port - r.cut) % PORTS);
      SumBack(r.cut, port);
    } else {
      AtDown(r, (r.cut - 1 - port) % PORTS);
      DifferenceBack(r.cut - 1, port);
    }
  }

  lemma SumBack(a: int, x: Port)
    ensures (a + (x - a) % PORTS) % PORTS == x
  {
  }

  lemma DifferenceBack(a: int, x: Port)
    ensures (a - (a - x) % PORTS) % PORTS == x
  {
  }

  lemma NeverOver(r: Range, n: nat)
    requires InOrder(r) && !NoWrap(r)
    ensures !At(r, n).Over?
  {
    if r.high == PORTS - 1 || n <= r.high - r.cut {
      AtUp(r, n);
    } else {
      AtDown(r, n - (r.high - r.cut + 1));
    }
  }

  /** With all ports taken the loops come to an end if and only if the range touches
      neither port 0 nor port 65535. */
  lemma LoopsEndExactly(r: Range)
    requires InOrder(r)
    ensures (exists n: nat :: At(r, n).Over?) <==> NoWrap(r)
  {
    if NoWrap(r) {
      AtEnd(r);
      assert At(r, r.high - r.low + 1).Over?;
    } else {
      forall n: nat
        ensures !At(r, n).Over?
      {
        NeverOver(r, n);
      }
    }
  }

  // Before the end only ports of the range are tried, and each of them.
  lemma WithinRange(r: Range, n: nat)
    requires InOrder(r) && NoWrap(r) && n <= r.high - r.low
    ensures !At(r, n).Over? && r.low <= At(r, n).port <= r.high
  {
    hide At;
    if n <= r.high - r.cut {
      AtUp(r, n);
      Small(r.cut + n);
    } else {
      Small(r.cut - 1 - (n - (r.high - r.cut + 1)));
      AtDown(r, n - (r.high - r.cut + 1));
    }
  }

  lemma EachTried(r: Range, port: Port)
    requires InOrder(r) && NoWrap(r) && r.low <= port <= r.high
    ensures exists n :: 0 <= n <= r.high - r.low && At(r, n) == if port >= r.cut then Up(port) else Down(port)
  {
    hide At;
    Small(port);
    if port >= r.cut {
      AtUp(r, port - r.cut);
      assert At(r, port - r.cut) == Up(port);
    } else {
      AtDown(r, r.cut - 1 - port);
      assert At(r, r.high - r.cut + 1 + (r.cut - 1 - port)) == Down(port);
    }
  }
}
