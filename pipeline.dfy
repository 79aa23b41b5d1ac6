/**
 * The hand-off between the two scripts: `relay.js` writes the record that
 * `processar.py` reads as `entrada.json`.
 */
module Pipeline {
  import opened Wrappers
  import opened Text
  import Relay
  import Admission

  /** The stored record as `processar.py` reads it, for a relayed record whose phone is a string. */
  function Handoff(rec: Relay.Record): Admission.Stored
    requires rec.numero.Str?
  {
    Admission.Stored(Some(rec.numero.s), Some(rec.mensagem))
  }

  /**
   * A message made only of whitespace is truthy, so the relay forwards it,
   * but it is trimmed to "" and `processar.py` then ignores it for lack of
   * the keyword.
   */
  lemma BlankMessageRelayedThenIgnored(phone: string, message: string)
    requires phone != [] && message != [] && AllBlank(message, IsJsBlank)
    ensures var e := Relay.Entry(Relay.Str(phone), Relay.Str(message), Relay.Undefined);
      && Relay.Eligible(Some(e))
      && Relay.RecordOf(e).mensagem == []
      && Admission.Decide(Handoff(Relay.RecordOf(e))) == Admission.Ignore(Admission.NoKeyword)
  {
    TrimFacts(message, IsJsBlank);
    Admission.BlankNeverAnswered(Some(phone), Some([]));
  }
}
