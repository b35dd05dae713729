/**
 * The simulator's tunable parameters (ball count, mass and speed ranges), the
 * randint draws taken from them, and the key rules of the settings screen.
 */
module Settings {

  /** Fixed window size used when the balls are placed. */
  const Width: int := 800
  const Length: int := 480

  /** The five module-level parameters N, MASS_MIN, MASS_MAX, V_MIN, V_MAX. */
  datatype Config = Config(n: int, massMin: int, massMax: int, vMin: int, vMax: int)

  /** The values the program starts with. */
  const Defaults := Config(10, 20, 40, 0, 5)

  /**
   * What the settings screen guarantees about the parameters it leaves behind:
   * at least one ball, masses of at least 1, non-negative speeds and non-empty
   * ranges for both randint draws.
   */
  predicate ValidConfig(c: Config)
  {
    c.n >= 1 && 1 <= c.massMin <= c.massMax && 0 <= c.vMin <= c.vMax
  }

  lemma DefaultsValid()
    ensures ValidConfig(Defaults)
  {
  }

  /**
   * randint(lo, hi): the draw `u` is the random source's raw output, reduced
   * into the inclusive range by repeatedly subtracting the size of the range.
   * randint raises ValueError on an empty range.
   */
  function RandInt(lo: int, hi: int, u: nat): (r: int)
    requires lo <= hi
    ensures lo <= r <= hi
    decreases u
  {
    if lo + u <= hi then lo + u else RandInt(lo, hi, u - (hi - lo + 1))
  }

  /** Every value of the range is the outcome of some draw: r - lo draws r. */
  lemma RandIntCovers(lo: int, hi: int, r: int)
    requires lo <= r <= hi
    ensures RandInt(lo, hi, r - lo) == r
  {
  }

  // ---------------------------------------------------------------------------
  // The settings screen

  const MassMinKey := "MASSA MIN"
  const MassMaxKey := "MASSA MAX"
  const SpeedMinKey := "VELOCIDADE MIN"
  const SpeedMaxKey := "VELOCIDADE MAX"
  const CountKey := "N"

  /** The entries of the screen, in the order they are listed and navigated. */
  const Keys := [MassMinKey, MassMaxKey, SpeedMinKey, SpeedMaxKey, CountKey]

  /** Every entry of the screen has a value. */
  predicate HasAllKeys(m: map<string, int>)
  {
    MassMinKey in m && MassMaxKey in m && SpeedMinKey in m && SpeedMaxKey in m && CountKey in m
  }

  /** The editable values the screen starts from: the current parameters. */
  function InputsOf(c: Config): (m: map<string, int>)
    ensures HasAllKeys(m)
    ensures m[MassMinKey] == c.massMin && m[MassMaxKey] == c.massMax
    ensures m[SpeedMinKey] == c.vMin && m[SpeedMaxKey] == c.vMax && m[CountKey] == c.n
  {
    map[MassMinKey := c.massMin, MassMaxKey := c.massMax,
        SpeedMinKey := c.vMin, SpeedMaxKey := c.vMax, CountKey := c.n]
  }

  /** The floors that LEFT keeps: N and both masses at least 1, both speeds at least 0. */
  predicate Floored(m: map<string, int>)
    requires HasAllKeys(m)
  {
    m[CountKey] >= 1 && m[MassMinKey] >= 1 && m[MassMaxKey] >= 1
    && m[SpeedMinKey] >= 0 && m[SpeedMaxKey] >= 0
  }

  predicate StartsWith(s: string, prefix: string)
  {
    |prefix| <= |s| && s[..|prefix|] == prefix
  }

  function Max(a: int, b: int): int { if a >= b then a else b }

  /** The entries LEFT never takes below 1: N and the entries whose name starts with "MASS". */
  predicate FlooredAtOne(name: string)
  {
    name == CountKey || StartsWith(name, "MASS")
  }

  /** The entries LEFT never takes below 0: the other entries whose name starts with "V". */
  predicate FlooredAtZero(name: string)
  {
    !FlooredAtOne(name) && StartsWith(name, "V")
  }

  /**
   * The value of entry `name` after LEFT: one less, but never below the
   * entry's floor; a value at or below its floor is raised to the floor. An
   * entry with no floor keeps its value.
   */
  function Decremented(name: string, value: int): (r: int)
    ensures value - 1 <= r
    ensures FlooredAtOne(name) ==> r >= 1 && (value > 1 ==> r == value - 1) && (value <= 1 ==> r == 1)
    ensures FlooredAtZero(name) ==> r >= 0 && (value > 0 ==> r == value - 1) && (value <= 0 ==> r == 0)
    ensures !FlooredAtOne(name) && !FlooredAtZero(name) ==> r == value
  {
    if name == CountKey then Max(1, value - 1)
    else if StartsWith(name, "MASS") then Max(1, value - 1)
    else if StartsWith(name, "V") then Max(0, value - 1)
    else value
  }

  /**
   * Of the five entries of the screen, N and both masses have the floor 1 and
   * both speeds the floor 0, so LEFT keeps every entry at or above its floor.
   */
  lemma DecrementedFloors(k: nat, value: int)
    requires k < |Keys|
    ensures k == 0 || k == 1 || k == 4 ==> Decremented(Keys[k], value) >= 1
    ensures k == 2 || k == 3 ==> Decremented(Keys[k], value) >= 0
    ensures value - 1 <= Decremented(Keys[k], value)
    ensures value >= 2 || (value >= 1 && (k == 2 || k == 3)) ==> Decremented(Keys[k], value) == value - 1
  {
    assert FlooredAtOne(MassMinKey) && FlooredAtOne(MassMaxKey) && FlooredAtOne(CountKey);
    assert SpeedMinKey[..4] != "MASS" && SpeedMaxKey[..4] != "MASS" by {
      assert SpeedMinKey[0] == SpeedMaxKey[0] == 'V';
    }
    assert FlooredAtZero(SpeedMinKey) && FlooredAtZero(SpeedMaxKey);
  }

  /**
   * The parameters saved by ENTER: the minima as entered, each maximum raised
   * to its minimum when it was entered below it.
   */
  function Committed(m: map<string, int>): (c: Config)
    requires HasAllKeys(m)
    ensures c.massMin == m[MassMinKey] && c.vMin == m[SpeedMinKey] && c.n == m[CountKey]
    ensures c.massMax >= c.massMin && c.vMax >= c.vMin
    ensures m[MassMaxKey] >= m[MassMinKey] ==> c.massMax == m[MassMaxKey]
    ensures m[MassMaxKey] < m[MassMinKey] ==> c.massMax == c.massMin
    ensures m[SpeedMaxKey] >= m[SpeedMinKey] ==> c.vMax == m[SpeedMaxKey]
    ensures m[SpeedMaxKey] < m[SpeedMinKey] ==> c.vMax == c.vMin
    ensures Floored(m) ==> ValidConfig(c)
  {
    var massMin := m[MassMinKey];
    var vMin := m[SpeedMinKey];
    Config(m[CountKey], massMin, Max(massMin, m[MassMaxKey]), vMin, Max(vMin, m[SpeedMaxKey]))
  }

  /** Committing the values the screen started from gives back valid parameters unchanged. */
  lemma CommitUnedited(c: Config)
    requires ValidConfig(c)
    ensures Committed(InputsOf(c)) == c
  {
  }

  datatype Key = Up | Down | Left | Right | Enter | Escape | Other

  /** What the screen does after a key: keep editing, return the saved parameters, or end the program. */
  datatype Reaction = Continue | Saved(config: Config) | Quit

  /** The state of tela_configuracoes: the editable values and the highlighted entry. */
  class ConfigScreen {
    var inputs: map<string, int>
    var selected: int

    ghost predicate Valid()
      reads this
    {
      0 <= selected < |Keys| && HasAllKeys(inputs)
    }

    constructor (c: Config)
      ensures Valid()
      ensures inputs == InputsOf(c) && selected == 0
      ensures ValidConfig(c) ==> Floored(inputs)
    {
      inputs := InputsOf(c);
      selected := 0;
    }

    /** The key handling of one KEYDOWN event. */
    method Press(key: Key) returns (r: Reaction)
      requires Valid()
      modifies this
      ensures Valid()
      ensures key == Enter <==> r.Saved?
      ensures key == Escape <==> r.Quit?
      ensures r.Saved? ==> r.config == Committed(old(inputs))
      ensures r.Saved? && Floored(old(inputs)) ==> ValidConfig(r.config)
      ensures key == Up ==> selected == (old(selected) + |Keys| - 1) % |Keys|
      ensures key == Down ==> selected == (old(selected) + 1) % |Keys|
      ensures key != Up && key != Down ==> selected == old(selected)
      ensures key == Left ==>
        inputs == old(inputs)[Keys[selected] := Decremented(Keys[selected], old(inputs)[Keys[selected]])]
      ensures key == Right ==> inputs == old(inputs)[Keys[selected] := old(inputs)[Keys[selected]] + 1]
      ensures key != Left && key != Right ==> inputs == old(inputs)
      ensures Floored(old(inputs)) ==> Floored(inputs)
    {
      r := Continue;
      match key {
        case Escape =>
          r := Quit;
        case Up =>
          selected := (selected - 1) % |Keys|;
        case Down =>
          selected := (selected + 1) % |Keys|;
        case Left =>
          var name := Keys[selected];
          DecrementedFloors(selected, inputs[name]);
          inputs := inputs[name := Decremented(name, inputs[name])];
        case Right =>
          var name := Keys[selected];
          inputs := inputs[name := inputs[name] + 1];
        case Enter =>
          r := Saved(Committed(inputs));
        case Other =>
      }
    }
  }
}
