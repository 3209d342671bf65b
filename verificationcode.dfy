/** The phone verification codes of server/models/VerificationCode.js: a dictionary from phone
    number to the pending code. The code value and the clock are parameters. */
module VerificationCode {
  import opened Common

  /** `10 * 60 * 1000`: a code lives ten minutes. */
  const Lifetime: int := 600000
  const MaxAttempts: int := 5

  datatype CodeRecord = CodeRecord(code: string, expiresAt: int, attempts: int, maxAttempts: int)

  /** The ways `verify` ends. `Wrong` carries the number of tries left. */
  datatype Verdict = Missing | Expired | Exhausted | Verified | Wrong(remaining: int)

  function Message(v: Verdict): string
  {
    match v
    case Missing => "验证码不存在或已过期"
    case Expired => "验证码已过期"
    case Exhausted => "验证次数过多，请重新获取验证码"
    case Verified => "验证成功"
    case Wrong(remaining) => "验证码错误，还有 " + (if remaining >= 0 then Decimal(remaining) else "-" + Decimal(-remaining)) + " 次机会"
  }

  /** The record `generate` stores. */
  function Issued(code: string, now: int): CodeRecord
  {
    CodeRecord(code, now + Lifetime, 0, MaxAttempts)
  }

  /** One `verify` call on the phone's record (`None`: no record): the verdict and what is left of
      the record (`None`: deleted). The checks run in the order missing, expired, exhausted,
      match. */
  function VerifyStep(record: Option<CodeRecord>, code: string, now: int): (Verdict, Option<CodeRecord>)
  {
    match record
    case None => (Missing, None)
    case Some(r) =>
      if now > r.expiresAt then (Expired, None)
      else if r.attempts >= r.maxAttempts then (Exhausted, None)
      else if r.code == code then (Verified, None)
      else (Wrong(r.maxAttempts - (r.attempts + 1)), Some(r.(attempts := r.attempts + 1)))
  }

  /** The codes `cleanup` keeps at time `now`. */
  function Unexpired(codes: map<string, CodeRecord>, now: int): map<string, CodeRecord>
  {
    map p | p in codes && now <= codes[p].expiresAt :: codes[p]
  }

  function RecordOf(codes: map<string, CodeRecord>, phone: string): Option<CodeRecord>
  {
    if phone in codes then Some(codes[phone]) else None
  }

  /** The dictionary with the phone's entry set to `after` (`None`: deleted). */
  function Store(codes: map<string, CodeRecord>, phone: string, after: Option<CodeRecord>): map<string, CodeRecord>
  {
    if after.Some? then codes[phone := after.value] else codes - {phone}
  }

  class CodeStore {
    var codes: map<string, CodeRecord>

    constructor ()
      ensures codes == map[]
    {
      codes := map[];
    }

    /** `generate(phone)`: replace any pending code of the phone by a fresh one. */
    method Generate(phone: string, code: string, now: int) returns (sent: string)
      modifies this
      ensures sent == code
      ensures codes == old(codes)[phone := Issued(code, now)]
    {
      codes := codes[phone := CodeRecord(code, now + 10 * 60 * 1000, 0, 5)];
      sent := code;
    }

    /** `verify(phone, code)`. */
    method Verify(phone: string, code: string, now: int) returns (success: bool, message: string)
      modifies this
      ensures success == (VerifyStep(RecordOf(old(codes), phone), code, now).0 == Verified)
      ensures message == Message(VerifyStep(RecordOf(old(codes), phone), code, now).0)
      ensures codes == Store(old(codes), phone, VerifyStep(RecordOf(old(codes), phone), code, now).1)
    {
      if phone !in codes {
        return false, Message(Missing);
      }
      var record := codes[phone];
      if now > record.expiresAt {
        codes := codes - {phone};
        return false, Message(Expired);
      }
      if record.attempts >= record.maxAttempts {
        codes := codes - {phone};
        return false, Message(Exhausted);
      }
      if record.code == code {
        codes := codes - {phone};
        return true, Message(Verified);
      }
      record := record.(attempts := record.attempts + 1);
      codes := codes[phone := record];
      return false, Message(Wrong(record.maxAttempts - record.attempts));
    }

    /** `cleanup()`: the for-in loop deletes every expired entry. */
    method Cleanup(now: int)
      modifies this
      ensures codes == Unexpired(old(codes), now)
    {
      var pending := codes.Keys;
      while pending != {}
        invariant pending <= old(codes).Keys
        invariant forall p :: p in codes <==> p in old(codes) && (p in pending || now <= old(codes)[p].expiresAt)
        invariant forall p :: p in codes ==> codes[p] == old(codes)[p]
        decreases pending
      {
        var phone :| phone in pending;
        if now > codes[phone].expiresAt {
          codes := codes - {phone};
        }
        pending := pending - {phone};
      }
    }
  }

  // ---------------------------------------------------------------------------------------
  // Properties of the state machine

  /** With no record, `verify` fails and deletes nothing. */
  lemma MissingChangesNothing(codes: map<string, CodeRecord>, phone: string, code: string, now: int)
    requires phone !in codes
    ensures VerifyStep(RecordOf(codes, phone), code, now).0 == Missing
    ensures Store(codes, phone, VerifyStep(RecordOf(codes, phone), code, now).1) == codes
  {
  }

  /** A fresh code is accepted up to and including its expiry instant, and only then. */
  lemma FreshCodeAccepted(code: string, issuedAt: int, now: int)
    ensures VerifyStep(Some(Issued(code, issuedAt)), code, now).0 == Verified <==> now <= issuedAt + Lifetime
  {
  }

  /** Expiry wins over exhaustion and over a matching code, and deletes the record. */
  lemma ExpiryWins(r: CodeRecord, code: string, now: int)
    requires now > r.expiresAt
    ensures VerifyStep(Some(r), code, now) == (Expired, None)
  {
  }

  /** A success deletes the record, so an immediate second `verify` finds nothing. */
  lemma {:induction false} SingleUse(codes: map<string, CodeRecord>, phone: string, code: string, again: string, now: int, later: int)
    requires VerifyStep(RecordOf(codes, phone), code, now).0 == Verified
    ensures var after := Store(codes, phone, VerifyStep(RecordOf(codes, phone), code, now).1);
            phone !in after && VerifyStep(RecordOf(after, phone), again, later).0 == Missing
  {
    var v := VerifyStep(RecordOf(codes, phone), code, now);
    assert v.1 == None;
  }

  /** A wrong code inside the limits keeps the record with one more attempt and reports
      `maxAttempts - attempts` tries left. */
  lemma WrongCodeCounts(r: CodeRecord, code: string, now: int)
    requires now <= r.expiresAt && r.attempts < r.maxAttempts && r.code != code
    ensures VerifyStep(Some(r), code, now) ==
            (Wrong(r.maxAttempts - r.attempts - 1), Some(r.(attempts := r.attempts + 1)))
  {
  }

  /** `verify` calls in sequence at the same instant: the verdicts and the record left. */
  function Session(record: Option<CodeRecord>, guesses: seq<string>, now: int): (seq<Verdict>, Option<CodeRecord>)
    decreases |guesses|
  {
    if guesses == [] then ([], record)
    else
      var (v, after) := VerifyStep(record, guesses[0], now);
      var (rest, final) := Session(after, guesses[1..], now);
      ([v] + rest, final)
  }

  /** Wrong guesses within the limits count down the remaining tries one by one. */
  lemma {:induction false} WrongGuessesCountDown(r: CodeRecord, guesses: seq<string>, now: int)
    requires now <= r.expiresAt && r.attempts + |guesses| <= r.maxAttempts
    requires forall g :: g in guesses ==> g != r.code
    ensures |Session(Some(r), guesses, now).0| == |guesses|
    ensures forall i :: 0 <= i < |guesses| ==>
              Session(Some(r), guesses, now).0[i] == Wrong(r.maxAttempts - r.attempts - i - 1)
    ensures Session(Some(r), guesses, now).1 == Some(r.(attempts := r.attempts + |guesses|))
    decreases |guesses|
  {
    if guesses != [] {
      var next := r.(attempts := r.attempts + 1);
      assert guesses[0] in guesses;
      forall g | g in guesses[1..] ensures g != next.code {
        assert g in guesses;
      }
      assert VerifyStep(Some(r), guesses[0], now) == (Wrong(r.maxAttempts - r.attempts - 1), Some(next));
      WrongGuessesCountDown(next, guesses[1..], now);
      assert next.(attempts := next.attempts + |guesses[1..]|) == r.(attempts := r.attempts + |guesses|);
    }
  }

  /** After five wrong guesses on a fresh code, the sixth try fails even with the right code, and
      the record is gone. */
  lemma SixthTryFails(code: string, issuedAt: int, now: int, wrong: seq<string>)
    requires issuedAt <= now <= issuedAt + Lifetime
    requires |wrong| == MaxAttempts && forall g :: g in wrong ==> g != code
    ensures |Session(Some(Issued(code, issuedAt)), wrong + [code], now).0| == MaxAttempts + 1
    ensures Session(Some(Issued(code, issuedAt)), wrong + [code], now).0[MaxAttempts] == Exhausted
    ensures Session(Some(Issued(code, issuedAt)), wrong + [code], now).1 == None
  {
    var r := Issued(code, issuedAt);
    WrongGuessesCountDown(r, wrong, now);
    SessionAppend(Some(r), wrong, [code], now);
  }

  /** A session split in two runs the second part on what the first left. */
  lemma {:induction false} SessionAppend(record: Option<CodeRecord>, a: seq<string>, b: seq<string>, now: int)
    ensures Session(record, a + b, now).0 == Session(record, a, now).0 + Session(Session(record, a, now).1, b, now).0
    ensures Session(record, a + b, now).1 == Session(Session(record, a, now).1, b, now).1
    decreases |a|
  {
    if a != [] {
      var after := VerifyStep(record, a[0], now).1;
      assert (a + b)[0] == a[0];
      assert (a + b)[1..] == a[1..] + b;
      SessionAppend(after, a[1..], b, now);
    } else {
      assert a + b == b;
    }
  }

  /** `cleanup` keeps exactly the unexpired records, untouched; a `verify` at the same instant then
      never reports an expired code. */
  lemma CleanupKeepsLive(codes: map<string, CodeRecord>, now: int, phone: string, code: string)
    ensures forall p :: p in Unexpired(codes, now) <==> p in codes && now <= codes[p].expiresAt
    ensures forall p :: p in Unexpired(codes, now) ==> Unexpired(codes, now)[p] == codes[p]
    ensures VerifyStep(RecordOf(Unexpired(codes, now), phone), code, now).0 != Expired
  {
  }
}
