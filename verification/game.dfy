/** The game's run state. */
module Game {
  import opened Wrappers

  datatype GameState = Quit | Paused | Playing | Pausing

  /** The integer code of each constant. */
  function Code(g: GameState): (n: int)
    ensures 0 <= n < 4
  {
    match g
    case Quit => 0
    case Paused => 1
    case Playing => 2
    case Pausing => 3
  }

  function FromCode(n: int): (r: Option<GameState>)
    ensures r.Some? <==> 0 <= n < 4
    ensures r.Some? ==> Code(r.value) == n
  {
    if n == 0 then Some(Quit)
    else if n == 1 then Some(Paused)
    else if n == 2 then Some(Playing)
    else if n == 3 then Some(Pausing)
    else None
  }

  function Name(g: GameState): string {
    match g
    case Quit => "Quit"
    case Paused => "Paused"
    case Playing => "Playing"
    case Pausing => "Pausing"
  }

  /** `GameState.String` on any integer: the name, or the panic for a value that is not a constant. */
  function String(n: int): (r: Result<string>)
    ensures r.Success? <==> 0 <= n < 4
  {
    match FromCode(n)
    case Some(g) => Success(Name(g))
    case None => Failure("GameState not implemented")
  }

  /** Codes and constants correspond one to one. */
  lemma CodeRoundTrip(g: GameState)
    ensures FromCode(Code(g)) == Some(g)
  {
  }

  /** Distinct states have distinct names. */
  lemma NameInjective(g: GameState, h: GameState)
    requires Name(g) == Name(h)
    ensures g == h
  {
  }

  /** The four constants and their names. */
  lemma Codes()
    ensures String(0) == Success("Quit") && String(1) == Success("Paused")
    ensures String(2) == Success("Playing") && String(3) == Success("Pausing")
  {
  }
}
