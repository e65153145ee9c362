/** Argument validation and payload construction of `criar_agendamento_tool`
    (app/ai/tools/criar_agendamento_tool.py). The POST itself is an effect
    outside the model: the validation either rejects the call with an error
    record or yields the payload to post; the reply is the server's answer,
    compacted. */
module CreateBooking {
  import opened Text
  import opened Values
  import opened Shared

  /** The tool's arguments as the agent passes them (any JSON value). */
  datatype Args = Args(
    servicoId: Value,
    profissionalId: Value,
    clienteId: Value,
    dataHoraInicio: Value,
    duracaoEmMinutos: Value,
    valor: Value,
    observacoes: Value,
    confirmado: Value)

  /** An error record returned to the agent, or the payload posted. */
  datatype Outcome = Rejected(body: Dict) | Post(payload: Dict)

  const ArgsInvalid: string := "ARGS_INVALIDOS"
  const ProfessionalIdInvalid: string := "PROFISSIONAL_ID_INVALIDO"
  const ServiceIdInvalid: string := "SERVICO_ID_INVALIDO"
  const ProfessionalIdMessage: string := "profissionalId deve ser numérico"
  const ServiceIdMessage: string := "servicoId deve ser numérico"

  /** `required_fields`, in declaration order. */
  function RequiredFields(a: Args): (fs: Dict)
    ensures Keys(fs) == RequiredNames
  {
    [Entry("servicoId", a.servicoId), Entry("profissionalId", a.profissionalId),
     Entry("clienteId", a.clienteId), Entry("dataHoraInicio", a.dataHoraInicio),
     Entry("duracaoEmMinutos", a.duracaoEmMinutos), Entry("valor", a.valor)]
  }

  const RequiredNames: seq<string> :=
    ["servicoId", "profissionalId", "clienteId", "dataHoraInicio", "duracaoEmMinutos", "valor"]

  /** `[name for name, val in fields if val in (None, "", [])]`. */
  function Missing(fields: Dict): (names: seq<string>)
    ensures |names| <= |fields|
    ensures names == [] <==> forall i :: 0 <= i < |fields| ==> !IsAbsent(fields[i].val)
    decreases |fields|
  {
    if fields == [] then []
    else (if IsAbsent(fields[0].val) then [fields[0].key] else []) + Missing(fields[1..])
  }

  /** Python's `str(v).isdigit()`. */
  predicate DigitText(v: Value) {
    IsDigits(Str(v))
  }

  /** The error record for a non-numeric identifier. */
  function InvalidId(code: string, message: string, v: Value): Dict {
    [Entry("error", VStr(code)), Entry("message", VStr(message)), Entry("value", VStr(Str(v)))]
  }

  function StrList(names: seq<string>): (r: seq<Value>)
    ensures |r| == |names|
    ensures forall k :: 0 <= k < |names| ==> r[k] == VStr(names[k])
  {
    seq(|names|, k requires 0 <= k < |names| => VStr(names[k]))
  }

  const PayloadKeys: seq<string> :=
    ["servicoId", "clienteId", "profissionalId", "dataHoraInicio", "duracaoEmMinutos",
     "valor", "observacoes", "confirmado"]

  /** The `payload` literal. */
  function Payload(a: Args): (r: Dict)
    ensures Keys(r) == PayloadKeys && UniqueKeys(r)
    ensures GetOrNone(r, "confirmado") != VNone
  {
    var d := [Entry("servicoId", a.servicoId), Entry("clienteId", a.clienteId),
              Entry("profissionalId", a.profissionalId), Entry("dataHoraInicio", a.dataHoraInicio),
              Entry("duracaoEmMinutos", a.duracaoEmMinutos), Entry("valor", a.valor),
              Entry("observacoes", a.observacoes),
              Entry("confirmado", if a.confirmado == VNone then VBool(true) else a.confirmado)];
    GetAt(d, 7);
    d
  }

  /** Lines 25-64 of the tool: the checks in order, each returning first. */
  function ValidateBooking(a: Args): (r: Outcome)
    ensures Missing(RequiredFields(a)) != [] ==>
              r == Rejected([Entry("error", VStr(ArgsInvalid)),
                             Entry("missing", VList(StrList(Missing(RequiredFields(a)))))])
    ensures Missing(RequiredFields(a)) == [] && !DigitText(a.profissionalId) ==>
              r == Rejected(InvalidId(ProfessionalIdInvalid, ProfessionalIdMessage, a.profissionalId))
    ensures Missing(RequiredFields(a)) == [] && DigitText(a.profissionalId) && !DigitText(a.servicoId) ==>
              r == Rejected(InvalidId(ServiceIdInvalid, ServiceIdMessage, a.servicoId))
    ensures r.Post? <==>
              Missing(RequiredFields(a)) == [] && DigitText(a.profissionalId) && DigitText(a.servicoId)
    ensures r.Post? ==> r.payload == Payload(a)
  {
    var missing := Missing(RequiredFields(a));
    if missing != [] then
      Rejected([Entry("error", VStr(ArgsInvalid)), Entry("missing", VList(StrList(missing)))])
    else if !DigitText(a.profissionalId) then
      Rejected(InvalidId(ProfessionalIdInvalid, ProfessionalIdMessage, a.profissionalId))
    else if !DigitText(a.servicoId) then
      Rejected(InvalidId(ServiceIdInvalid, ServiceIdMessage, a.servicoId))
    else
      Post(Payload(a))
  }

  /** `_compact_agendamento` as the mapper handed to `_compact_response`. */
  function BookingMapper(v: Value): Value {
    match v
    case VDict(e) => VDict(CompactBooking(e))
    case _ => v
  }

  /** What the tool returns for the server's answer to the POST. */
  function BookingReply(resp: Value): (r: Value)
    ensures !resp.VDict? || Truthy(GetOrNone(resp.entries, "error")) ==> r == resp
    ensures resp.VDict? && !Truthy(GetOrNone(resp.entries, "error")) && GetOrNone(resp.entries, "data").VDict? ==>
              r.VDict? && Get(r.entries, "data") == Some(VDict(CompactBooking(GetOrNone(resp.entries, "data").entries)))
  {
    Compacted(resp, BookingMapper)
  }

  // -------------------------------------------------------------------
  // Properties
  // -------------------------------------------------------------------

  /** A field is listed as missing exactly when its value is absent. */
  lemma {:induction false} MissingIff(fields: Dict, name: string)
    ensures name in Missing(fields) <==>
            exists i :: 0 <= i < |fields| && fields[i].key == name && IsAbsent(fields[i].val)
    decreases |fields|
  {
    if fields != [] {
      var tail := fields[1..];
      var head: seq<string> := if IsAbsent(fields[0].val) then [fields[0].key] else [];
      assert Missing(fields) == head + Missing(tail);
      MissingIff(tail, name);
      assert forall i :: 1 <= i < |fields| ==> fields[i] == tail[i - 1];
      if name in Missing(tail) {
        var i :| 0 <= i < |tail| && tail[i].key == name && IsAbsent(tail[i].val);
        assert fields[i + 1] == tail[i];
      }
      if exists i :: 0 <= i < |fields| && fields[i].key == name && IsAbsent(fields[i].val) {
        var i :| 0 <= i < |fields| && fields[i].key == name && IsAbsent(fields[i].val);
        if i == 0 {
          assert name in head;
        } else {
          assert tail[i - 1] == fields[i];
        }
      }
    }
  }

  /** The missing list keeps declaration order: it filters segment by segment. */
  lemma {:induction false} MissingAppend(a: Dict, b: Dict)
    ensures Missing(a + b) == Missing(a) + Missing(b)
    decreases |a|
  {
    if a != [] {
      assert (a + b)[1..] == a[1..] + b;
      MissingAppend(a[1..], b);
    } else {
      assert a + b == b;
    }
  }

  /** Every required field with a usable value leaves the missing list empty. */
  lemma NothingMissing(a: Args)
    requires !IsAbsent(a.servicoId) && !IsAbsent(a.profissionalId) && !IsAbsent(a.clienteId)
    requires !IsAbsent(a.dataHoraInicio) && !IsAbsent(a.duracaoEmMinutos) && !IsAbsent(a.valor)
    ensures Missing(RequiredFields(a)) == []
  {
  }

  /** `confirmado` defaults to true when not given. */
  lemma PayloadConfirmed(a: Args)
    ensures Get(Payload(a), "confirmado") == Some(if a.confirmado == VNone then VBool(true) else a.confirmado)
  {
    GetAt(Payload(a), 7);
  }

  /** The identifiers are copied unchanged under their own names. */
  lemma PayloadIds(a: Args)
    ensures Get(Payload(a), "servicoId") == Some(a.servicoId)
    ensures Get(Payload(a), "clienteId") == Some(a.clienteId)
    ensures Get(Payload(a), "profissionalId") == Some(a.profissionalId)
  {
    var p := Payload(a);
    GetAt(p, 0);
    GetAt(p, 1);
    GetAt(p, 2);
  }

  /** So are the start and the duration. */
  lemma PayloadTiming(a: Args)
    ensures Get(Payload(a), "dataHoraInicio") == Some(a.dataHoraInicio)
    ensures Get(Payload(a), "duracaoEmMinutos") == Some(a.duracaoEmMinutos)
  {
    GetAt(Payload(a), 3);
    GetAt(Payload(a), 4);
  }

  /** And the price and the notes. */
  lemma PayloadPriceNotes(a: Args)
    ensures Get(Payload(a), "valor") == Some(a.valor)
    ensures Get(Payload(a), "observacoes") == Some(a.observacoes)
  {
    GetAt(Payload(a), 5);
    GetAt(Payload(a), 6);
  }

  /** A missing profissionalId is reported as missing, not as a non-numeric id. */
  lemma MissingBeforeDigits(a: Args)
    requires IsAbsent(a.profissionalId)
    ensures ValidateBooking(a).Rejected?
    ensures Get(ValidateBooking(a).body, "error") == Some(VStr(ArgsInvalid))
  {
    var fs := RequiredFields(a);
    MissingIff(fs, "profissionalId");
    assert fs[1].key == "profissionalId";
    var body := ValidateBooking(a).body;
    assert body[0].key == "error";
  }
}
