/**
 * The send-message webhook (`src/webhooks/message.js`): `POST /send-message`
 * with a JSON body `{ phone, message }`. The body is validated first, the
 * socket's readiness second; then the phone number is reduced to its digits,
 * turned into a WhatsApp JID and one text message is queued for it.
 */
module Webhook {
  import opened Js

  const Method := "post"
  const Path := "/send-message"
  const Enabled := true

  const JidSuffix := "@s.whatsapp.net"
  const MissingInput := "Missing phone or message"
  const NotReady := "WhatsApp not ready yet"
  /** What `phone.replace` throws when `phone` is a truthy non-string, such as a number. */
  const ReplaceNotAFunction := "phone.replace is not a function"

  /** The two fields read from `req.body`; an absent field is `Undefined`. */
  datatype Body = Body(phone: JsValue, message: JsValue)

  /** The response sent, or the exception the handler throws before sending one. */
  datatype Response = Status(code: int, text: string) | Threw(error: string)

  /** One `queueMessage(jid, { text })` call. */
  datatype Queued = Queued(jid: string, text: JsValue)

  datatype Outcome = Outcome(response: Response, queued: seq<Queued>)

  /** The characters `\d` matches: the ASCII digits. */
  predicate IsDigit(c: char)
  {
    '0' <= c <= '9'
  }

  /** `s.replace(/\D/g, '')`: the digits of `s`, in order. */
  function Digits(s: string): (r: string)
    ensures |r| <= |s|
    ensures forall i :: 0 <= i < |r| ==> IsDigit(r[i])
  {
    if s == [] then []
    else (if IsDigit(s[0]) then [s[0]] else []) + Digits(s[1..])
  }

  /** The JID a phone number is sent to. */
  function Jid(phone: string): string
  {
    Digits(phone) + JidSuffix
  }

  /**
   * The default export, given the body and `sock?.user` (`Undefined` when
   * there is no socket). It answers 400 for a falsy phone or message, then
   * 500 when the socket has no user, and otherwise queues one message and
   * answers `OK`.
   */
  function SendMessage(body: Body, sockUser: JsValue): Outcome
  {
    if !body.phone.Truthy() || !body.message.Truthy() then Outcome(Status(400, MissingInput), [])
    else if !sockUser.Truthy() then Outcome(Status(500, NotReady), [])
    else
      match body.phone
      case Str(p) => Outcome(Status(200, "OK"), [Queued(Jid(p), body.message)])
      case _ => Outcome(Threw(ReplaceNotAFunction), [])
  }

  /**
   * The body is checked before the socket: a body without a truthy phone
   * and message gets 400 and queues nothing whatever the socket's state.
   */
  lemma ValidationComesFirst(body: Body, sockUser: JsValue)
    requires !body.phone.Truthy() || !body.message.Truthy()
    ensures SendMessage(body, sockUser) == Outcome(Status(400, MissingInput), [])
    ensures SendMessage(body, sockUser) == SendMessage(body, Undefined)
  {
  }

  /** A valid body with no connected socket gets 500 and queues nothing. */
  lemma NotReadyQueuesNothing(body: Body, sockUser: JsValue)
    requires body.phone.Truthy() && body.message.Truthy() && !sockUser.Truthy()
    ensures SendMessage(body, sockUser) == Outcome(Status(500, NotReady), [])
  {
  }

  /**
   * At most one message is queued, and one is queued exactly when the
   * answer is `OK`: for a truthy phone string and message with a connected
   * socket. It goes to the phone's JID and carries the message unchanged.
   */
  lemma OneMessageExactlyOnOk(body: Body, sockUser: JsValue)
    ensures |SendMessage(body, sockUser).queued| <= 1
    ensures |SendMessage(body, sockUser).queued| == 1
      <==> SendMessage(body, sockUser).response == Status(200, "OK")
    ensures SendMessage(body, sockUser).response == Status(200, "OK")
      <==> body.phone.Str? && body.phone.Truthy() && body.message.Truthy() && sockUser.Truthy()
    ensures body.phone.Str? && SendMessage(body, sockUser).queued != [] ==>
      SendMessage(body, sockUser).queued == [Queued(Jid(body.phone.s), body.message)]
  {
  }

  /** Digits of a concatenation are the concatenation of the digits. */
  lemma {:induction false} DigitsAppend(a: string, b: string)
    ensures Digits(a + b) == Digits(a) + Digits(b)
  {
    if a != [] {
      var head := if IsDigit(a[0]) then [a[0]] else [];
      assert (a + b)[0] == a[0];
      assert (a + b)[1..] == a[1..] + b;
      DigitsAppend(a[1..], b);
      calc {
        Digits(a + b);
        head + Digits(a[1..] + b);
        head + (Digits(a[1..]) + Digits(b));
        (head + Digits(a[1..])) + Digits(b);
        Digits(a) + Digits(b);
      }
    } else {
      assert a + b == b;
    }
  }

  /** A string of digits only is left as it is. */
  lemma {:induction false} DigitsOfDigitString(s: string)
    requires forall i :: 0 <= i < |s| ==> IsDigit(s[i])
    ensures Digits(s) == s
  {
    if s != [] {
      DigitsOfDigitString(s[1..]);
    }
  }

  /** Every digit of the phone is kept, as often as it occurs; every other character is dropped. */
  lemma {:induction false} DigitsCounts(s: string, c: char)
    ensures multiset(Digits(s))[c] == if IsDigit(c) then multiset(s)[c] else 0
  {
    if s != [] {
      DigitsCounts(s[1..], c);
      assert s == [s[0]] + s[1..];
      assert multiset(s) == multiset([s[0]]) + multiset(s[1..]);
      var head := if IsDigit(s[0]) then [s[0]] else [];
      assert multiset(Digits(s)) == multiset(head) + multiset(Digits(s[1..]));
    }
  }

  /** Two phone numbers reach the same JID exactly when they have the same digits. */
  lemma JidIdentifiesDigits(p: string, q: string)
    ensures Jid(p) == Jid(q) <==> Digits(p) == Digits(q)
    ensures EndsWith(Jid(p), JidSuffix) && Jid(p)[..|Digits(p)|] == Digits(p)
  {
    if Jid(p) == Jid(q) {
      assert |Digits(p)| == |Digits(q)|;
      assert Jid(p)[..|Digits(p)|] == Digits(p);
      assert Jid(q)[..|Digits(q)|] == Digits(q);
    }
    assert Jid(p)[|Jid(p)| - |JidSuffix|..] == JidSuffix;
  }
}
