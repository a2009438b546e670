/** The kVAh / kWh switch shared by the zone chart and the energy log. */
module Units {
  datatype Unit = KVAh | KWh

  /** `toggleSwitch`: `selectedUnit === 'kVAh' ? 'kWh' : 'kVAh'`. */
  function Toggle(u: Unit): (r: Unit)
    ensures r != u
  {
    if u == KVAh then KWh else KVAh
  }

  /** Toggling twice restores the unit. */
  lemma {:induction false} ToggleInvolution(u: Unit)
    ensures Toggle(Toggle(u)) == u
  {
  }
}
