/**
 * Which instrument the plugin models: the host name is looked up in a fixed
 * table, an unknown host falls back to HIRES, and the instrument name is
 * then matched to a subclass.
 */
module HostSelection {
  import opened Options
  import opened Instruments

  /** The known observing hosts and the instrument each one runs. */
  const Hostnames: map<string, string> := map[
    "nuu" := "MOSFIRE",
    "mosfireserver" := "MOSFIRE",
    "vm-mosfire" := "MOSFIRE",
    "lehoula" := "HIRES",
    "hiresserver" := "HIRES",
    "vm-hires" := "HIRES",
    "vm-esi" := "ESI",
    "vm-nires" := "NIRES"
  ]

  const DefaultInstrument: string := "HIRES"

  /** The instrument name for a host: the table entry, or the default on a KeyError. */
  function InstrumentName(hostname: string): (name: string)
    ensures name in Hostnames.Values || name == DefaultInstrument
  {
    if hostname in Hostnames then Hostnames[hostname] else DefaultInstrument
  }

  /**
   * The `if/elif` chain that instantiates the subclass of a given name: it
   * picks exactly the instrument whose class has that name, and none when
   * no class does.
   */
  function KindNamed(name: string): (r: Option<Kind>)
    ensures forall k :: r == Some(k) <==> ClassName(k) == name
  {
    if name == "MOSFIRE" then Some(MOSFIRE)
    else if name == "HIRES" then Some(HIRES)
    else if name == "ESI" then Some(ESI)
    else if name == "LRISb" then Some(LRISb)
    else if name == "LRISr" then Some(LRISr)
    else if name == "NIRES" then Some(NIRES)
    else if name == "NIRESim" then Some(NIRESim)
    else None
  }

  /**
   * The instrument chosen for a host. Every name the lookup can produce
   * matches a branch of the chain, so an instrument is always chosen, and
   * the chosen subclass carries the looked-up name.
   */
  function SelectInstrument(hostname: string): (k: Kind)
    ensures KindNamed(InstrumentName(hostname)) == Some(k)
    ensures ConfigOf(k, "").name == InstrumentName(hostname)
  {
    var name := InstrumentName(hostname);
    assert name in {"MOSFIRE", "HIRES", "ESI", "NIRES"} by {
      if hostname in Hostnames {
        assert hostname in {"nuu", "mosfireserver", "vm-mosfire", "lehoula",
                            "hiresserver", "vm-hires", "vm-esi", "vm-nires"};
      }
    }
    match KindNamed(name)
    case Some(k) => k
    case None => assert false; HIRES
  }

  /**
   * Each listed host selects its instrument, every other host selects HIRES,
   * and no host selects LRIS Blue, LRIS Red or the NIRES slit camera.
   */
  lemma SelectionByHost(hostname: string)
    ensures SelectInstrument(hostname) == MOSFIRE <==>
      hostname in {"nuu", "mosfireserver", "vm-mosfire"}
    ensures SelectInstrument(hostname) == ESI <==> hostname == "vm-esi"
    ensures SelectInstrument(hostname) == NIRES <==> hostname == "vm-nires"
    ensures SelectInstrument(hostname) == HIRES <==>
      hostname in {"lehoula", "hiresserver", "vm-hires"} || hostname !in Hostnames
    ensures SelectInstrument(hostname) !in {LRISb, LRISr, NIRESim}
  {
  }
}
