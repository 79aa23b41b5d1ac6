/**
 * The admission gate and reply of `processar.py`: one run reads the stored
 * record `{numero, mensagem}`, decides whether to answer, and if so sends
 * exactly one reply to `numero`.
 */
module Admission {
  import opened Wrappers
  import opened Text

  /** The parsed `entrada.json`; a field the JSON object lacks is `None`. */
  datatype Stored = Stored(numero: Option<string>, mensagem: Option<string>)

  /** The trigger keyword, matched case-insensitively in the message. */
  const Keyword: string := "zumo"

  /** The marker that identifies a group chat in the lower-cased `numero`. */
  const GroupMarker: string := "group"

  /** What precedes the error text when the language model call fails. */
  const AiErrorPrefix: string := "\U{26A0}\U{FE0F} Erro de IA: "

  /** Why a record was not answered. */
  datatype Reason = NoKeyword | GroupChat

  datatype Decision = Ignore(reason: Reason) | Respond

  /** The body of the reply request: `{"phone": ..., "message": ...}`. */
  datatype SendRequest = SendRequest(phone: string, message: string)

  /** How the script reports the send: HTTP 200, any other status, or an exception. */
  datatype Delivery = Delivered | Rejected(status: int) | SendFailed(error: string)

  /** Everything one run does that the outside world can see. */
  datatype Transcript = Transcript(decision: Decision, sends: seq<SendRequest>, delivery: Option<Delivery>)

  /** Python's `s.strip()`. */
  function Strip(s: string): string {
    Trim(s, IsPythonBlank)
  }

  /** `numero`, defaulting to "" when missing. */
  function Numero(d: Stored): string {
    d.numero.GetOr("")
  }

  /** `mensagem`, defaulting to "" when missing, then stripped. */
  function Mensagem(d: Stored): string {
    Strip(d.mensagem.GetOr(""))
  }

  /** `word` is a substring of the lower-cased `text`. */
  ghost predicate Mentions(text: string, word: string) {
    Occurs(Lower(text), word)
  }

  /**
   * The two gates, in their order: first the keyword gate (an empty message or
   * one without "zumo" is ignored), then the group gate.
   */
  function Decide(d: Stored): (dec: Decision)
    ensures dec == Respond <==>
      Mensagem(d) != [] && Mentions(Mensagem(d), Keyword) && !Mentions(Numero(d), GroupMarker)
    ensures dec == Ignore(NoKeyword) <==> Mensagem(d) == [] || !Mentions(Mensagem(d), Keyword)
    ensures dec == Ignore(GroupChat) ==> Mentions(Numero(d), GroupMarker)
  {
    var numero := Numero(d);
    var mensagem := Mensagem(d);
    if mensagem == [] || !Contains(Lower(mensagem), Keyword) then
      Ignore(NoKeyword)
    else if Contains(Lower(numero), GroupMarker) then
      Ignore(GroupChat)
    else
      Respond
  }

  /**
   * The reply text: the model's answer stripped, or the fixed error prefix
   * followed by the error text.
   */
  function ReplyText(generated: Result<string, string>): (t: string)
    ensures generated.Success? ==>
      exists lo: nat :: TrimmedAt(generated.value, t, lo, IsPythonBlank)
    ensures generated.Failure? ==>
      AiErrorPrefix <= t && t[|AiErrorPrefix|..] == generated.error
  {
    match generated
    case Success(answer) => TrimFacts(answer, IsPythonBlank); Strip(answer)
    case Failure(error) => AiErrorPrefix + error
  }

  /** Success is exactly HTTP status 200; an exception is a failure. */
  function Report(response: Result<int, string>): (r: Delivery)
    ensures r == Delivered <==> response == Success(200)
    ensures r.SendFailed? <==> response.Failure?
  {
    match response
    case Success(status) => if status == 200 then Delivered else Rejected(status)
    case Failure(error) => SendFailed(error)
  }

  /**
   * One run of the script. The language model's outcome `generated` and the
   * send's outcome `response` are inputs; neither is consulted when the
   * record is ignored.
   */
  function Run(d: Stored, generated: Result<string, string>, response: Result<int, string>): (t: Transcript)
    ensures t.decision == Decide(d)
    ensures |t.sends| == (if Decide(d) == Respond then 1 else 0)
    ensures forall q :: q in t.sends ==> q == SendRequest(Numero(d), ReplyText(generated))
    ensures t.delivery.Some? <==> t.sends != []
    ensures t.delivery == Some(Delivered) <==> t.sends != [] && response == Success(200)
  {
    var decision := Decide(d);
    if decision == Respond then
      Transcript(decision, [SendRequest(Numero(d), ReplyText(generated))], Some(Report(response)))
    else
      Transcript(decision, [], None)
  }

  /** A record whose message is missing, empty or all whitespace is never answered. */
  lemma BlankNeverAnswered(numero: Option<string>, mensagem: Option<string>)
    requires mensagem.Some? ==> AllBlank(mensagem.value, IsPythonBlank)
    ensures Decide(Stored(numero, mensagem)) == Ignore(NoKeyword)
  {
    var m := Stored(numero, mensagem).mensagem.GetOr("");
    assert AllBlank(m, IsPythonBlank);
    TrimFacts(m, IsPythonBlank);
  }

  /**
   * Without "zumo" anywhere in the lower-cased raw message, nothing is sent,
   * whatever `numero` is.
   */
  lemma NoKeywordNeverAnswered(numero: Option<string>, mensagem: string)
    requires !Occurs(Lower(mensagem), Keyword)
    ensures Decide(Stored(numero, Some(mensagem))) == Ignore(NoKeyword)
  {
    if Mentions(Strip(mensagem), Keyword) {
      OccursInTrim(mensagem, Keyword, IsPythonBlank);
    }
  }

  /**
   * The decision depends on the two fields only up to ASCII case: records
   * whose fields agree once lower-cased are decided alike.
   */
  lemma DecisionIgnoresCase(d1: Stored, d2: Stored)
    requires Lower(d1.numero.GetOr("")) == Lower(d2.numero.GetOr(""))
    requires Lower(d1.mensagem.GetOr("")) == Lower(d2.mensagem.GetOr(""))
    ensures Decide(d1) == Decide(d2)
  {
    BlanksAreCaseBlind();
    TrimLowerCommute(d1.mensagem.GetOr(""), IsPythonBlank);
    TrimLowerCommute(d2.mensagem.GetOr(""), IsPythonBlank);
    assert Lower(Mensagem(d1)) == Lower(Mensagem(d2));
    assert |Mensagem(d1)| == |Lower(Mensagem(d1))|;
  }

  /** A missing `numero` defaults to "" and is therefore never taken for a group. */
  lemma MissingNumeroIsPrivate(mensagem: Option<string>)
    ensures Decide(Stored(None, mensagem)) != Ignore(GroupChat)
  {
    assert !OccursAt(Lower(""), GroupMarker, 0);
  }
}
