/** The settlement record the relay derives from a payment event, and the
    JSON object it is sent as. Pure: the record depends on the event alone. */
module Settlement {
  import opened Options
  import Base64
  import opened JavaLong
  import opened Json

  /** A 32-byte payment hash. */
  type ByteVector32 = s: seq<Base64.Byte> | |s| == 32 witness seq(32, _ => 0)

  /** What the node's event stream delivers. Only a received payment
      matters to the relay; every other message is one `Other`. */
  datatype PaymentEvent =
    | PaymentReceived(paymentHash: ByteVector32, amount: Long, timestamp: Long)
    | Other(kind: string)

  /** The six fields of a published settlement. `amtPaidSat` is in whole
      satoshis, `settleDate` is the event's timestamp as a long. */
  datatype SettlementRecord = SettlementRecord(
    rHash: string,
    amtPaidSat: Long,
    settled: bool,
    isKeySend: bool,
    state: int,
    settleDate: Long)

  const RHashField := "r_hash"
  const AmtPaidSatField := "amt_paid_sat"
  const SettledField := "settled"
  const IsKeySendField := "is_key_send"
  const StateField := "state"
  const SettleDateField := "settle_date"

  /** The member names of a payload, in the order they are added. */
  const FieldNames := [RHashField, AmtPaidSatField, SettledField, IsKeySendField, StateField, SettleDateField]

  /** Millisatoshis per satoshi. */
  const MsatPerSat: Long := 1000

  /** The record for an event: a received payment yields one, anything else
      yields none; every record says "settled, not keysend, state 1" and
      carries the event's timestamp unchanged as its settle date. */
  function Encode(e: PaymentEvent): (r: Option<SettlementRecord>)
    ensures r.Some? <==> e.PaymentReceived?
    ensures r.Some? ==> r.value.settled && !r.value.isKeySend && r.value.state == 1
    ensures r.Some? ==> r.value.settleDate == e.timestamp
  {
    match e
    case PaymentReceived(hash, amount, timestamp) =>
      Some(SettlementRecord(Base64.Encode(hash), Div(amount, MsatPerSat), true, false, 1, timestamp))
    case Other(_) => None
  }

  /** `r_hash` is 44 characters of base64 text that decodes back to the
      payment hash. */
  lemma EncodeHash(e: PaymentEvent)
    requires e.PaymentReceived?
    ensures |Encode(e).value.rHash| == 44
    ensures Base64.Decode(Encode(e).value.rHash) == Some(e.paymentHash[..])
  {
    var h: seq<Base64.Byte> := e.paymentHash;
    var t := Base64.Encode(h);
    assert Encode(e).value.rHash == t;
    assert |h| == 32 && (|h| + 2) / 3 == 11;
    Base64.DecodeEncode(h);
    assert h == e.paymentHash[..];
  }

  /** `amt_paid_sat` is the amount in whole satoshis, truncated toward zero:
      its magnitude is the largest number of whole satoshis within the
      amount's, and its sign is the amount's. On a non-negative amount it is
      the amount divided by 1000; on a negative amount that is not a whole
      number of satoshis it is one more than the floor of that quotient. */
  lemma EncodeAmount(e: PaymentEvent)
    requires e.PaymentReceived?
    ensures var sat := Encode(e).value.amtPaidSat;
      && Abs(sat) * 1000 <= Abs(e.amount) < (Abs(sat) + 1) * 1000
      && (e.amount >= 0 ==> sat == e.amount / 1000)
      && (e.amount < 0 && e.amount % 1000 != 0 ==> sat == e.amount / 1000 + 1)
      && (e.amount % 1000 == 0 ==> sat * 1000 == e.amount)
      && (sat < 0 ==> e.amount < 0)
  {
    if e.amount >= 0 {
      DivNonNegative(e.amount, MsatPerSat);
    } else if e.amount % 1000 != 0 {
      DivNegative(e.amount, MsatPerSat);
    }
  }

  function Abs(x: int): nat
  {
    if x < 0 then -x else x
  }

  /** The members of a payload, in the order `addProperty` is called. */
  function Fields(r: SettlementRecord): seq<Member>
  {
    [ Member(RHashField, JString(r.rHash)),
      Member(AmtPaidSatField, JNumber(r.amtPaidSat)),
      Member(SettledField, JBool(r.settled)),
      Member(IsKeySendField, JBool(r.isKeySend)),
      Member(StateField, JNumber(r.state)),
      Member(SettleDateField, JNumber(r.settleDate)) ]
  }

  /** The JSON object built by six `addProperty` calls on a fresh object. */
  function Payload(r: SettlementRecord): (o: JsonObject)
    ensures o.members == Fields(r)
  {
    var ms := Fields(r);
    FieldNamesDistinct();
    assert forall i :: 0 <= i < |ms| ==> ms[i].name == FieldNames[i];
    AddPropertiesFresh(Empty, ms);
    AddProperties(Empty, ms)
  }

  /** A consumer's reading of a payload by member name: each of the six
      names must be present with a value of the right kind. */
  function RecordOf(o: JsonObject): Option<SettlementRecord>
  {
    match (Get(o, RHashField), Get(o, AmtPaidSatField), Get(o, SettledField),
           Get(o, IsKeySendField), Get(o, StateField), Get(o, SettleDateField))
    case (Some(JString(h)), Some(JNumber(a)), Some(JBool(s)), Some(JBool(k)), Some(JNumber(st)), Some(JNumber(d))) =>
      if MinLong <= a <= MaxLong && MinLong <= d <= MaxLong then
        Some(SettlementRecord(h, a, s, k, st, d))
      else None
    case _ => None
  }

  /** No two of the six names are equal. */
  lemma FieldNamesDistinct()
    ensures forall i, j :: 0 <= i < j < |FieldNames| ==> FieldNames[i] != FieldNames[j]
  {
    assert |RHashField| == 6 && |AmtPaidSatField| == 12 && |SettledField| == 7;
    assert |IsKeySendField| == 11 && |StateField| == 5 && |SettleDateField| == 11;
    assert IsKeySendField[0] != SettleDateField[0];
  }

  /** The payload holds exactly the six members, in the order they were
      added, each with its field of the record. */
  lemma PayloadMembers(r: SettlementRecord)
    ensures Payload(r).members == [
      Member(RHashField, JString(r.rHash)),
      Member(AmtPaidSatField, JNumber(r.amtPaidSat)),
      Member(SettledField, JBool(r.settled)),
      Member(IsKeySendField, JBool(r.isKeySend)),
      Member(StateField, JNumber(r.state)),
      Member(SettleDateField, JNumber(r.settleDate))]
    ensures Keys(Payload(r)) == FieldNames
  {
    var ms := Fields(r);
    FieldNamesDistinct();
    assert forall i :: 0 <= i < |ms| ==> ms[i].name == FieldNames[i];
    AddPropertiesFresh(Empty, ms);
  }

  /** Each of the six names looks up its field of the record. */
  lemma PayloadValues(r: SettlementRecord)
    ensures Get(Payload(r), RHashField) == Some(JString(r.rHash))
    ensures Get(Payload(r), AmtPaidSatField) == Some(JNumber(r.amtPaidSat))
    ensures Get(Payload(r), SettledField) == Some(JBool(r.settled))
    ensures Get(Payload(r), IsKeySendField) == Some(JBool(r.isKeySend))
    ensures Get(Payload(r), StateField) == Some(JNumber(r.state))
    ensures Get(Payload(r), SettleDateField) == Some(JNumber(r.settleDate))
  {
    var o := Payload(r);
    PayloadMembers(r);
    FieldNamesDistinct();
    forall i, j | 0 <= i < j < |o.members|
      ensures o.members[i].name != o.members[j].name
    {
      assert o.members[i].name == Keys(o)[i] == FieldNames[i];
      assert o.members[j].name == Keys(o)[j] == FieldNames[j];
    }
    GetMember(o, 0);
    GetMember(o, 1);
    GetMember(o, 2);
    GetMember(o, 3);
    GetMember(o, 4);
    GetMember(o, 5);
  }

  /** Reading a payload by member name gives back the record it was built
      from. */
  lemma RecordOfPayload(r: SettlementRecord)
    ensures RecordOf(Payload(r)) == Some(r)
  {
    PayloadValues(r);
  }

  /** Two events whose records carry the same `r_hash` are payments of the
      same hash. */
  lemma EncodeInjectiveOnHash(e1: PaymentEvent, e2: PaymentEvent)
    requires Encode(e1).Some? && Encode(e2).Some?
    requires Encode(e1).value.rHash == Encode(e2).value.rHash
    ensures e1.paymentHash == e2.paymentHash
  {
    Base64.EncodeInjective(e1.paymentHash, e2.paymentHash);
  }
}
