/** Push notifications (src/services/notificationService.ts): the message
    sent to the push provider, and what its outcome means. The provider is an
    opaque function from a device token to the outcome of a send; a token the
    provider reports as no longer registered is pruned from the devices
    table. */
module Notifications {
  import opened Common
  import opened Devices

  /** A provider data payload: string keys to string values. */
  type DataMap = map<string, string>

  /** The provider's error code for a token that is no longer registered. */
  const TokenNotRegistered := "messaging/registration-token-not-registered"

  datatype SendOutcome = Delivered(messageId: string) | Failed(code: string)

  /** The iOS `aps` options of a message. */
  datatype Aps = Aps(sound: Option<string>, badge: Option<int>, contentAvailable: Option<bool>)

  datatype PushMessage = PushMessage(
    token: string,
    notification: Option<(string, string)>,
    data: Option<DataMap>,
    androidPriority: string,
    androidSound: Option<string>,
    aps: Aps,
    apnsHeaders: map<string, string>)

  /** The visible notification of `sendPushNotification`: title and body,
      high priority and the default sound, badge 1, and iOS background
      delivery exactly when a data payload is attached. */
  function NotificationMessage(token: string, title: string, body: string, data: Option<DataMap>): (m: PushMessage)
    ensures m.token == token && m.notification == Some((title, body)) && m.data == data
    ensures m.androidPriority == "high" && m.aps.badge == Some(1)
    ensures m.aps.contentAvailable == (if data.Some? then Some(true) else None)
  {
    PushMessage(token, Some((title, body)), data, "high", Some("default"),
                Aps(Some("default"), Some(1), if data.Some? then Some(true) else None), map[])
  }

  /** The silent message of `sendDataNotification`: data only, marked for
      background delivery on iOS at normal priority. */
  function DataMessage(token: string, data: DataMap): (m: PushMessage)
    ensures m.token == token && m.notification.None? && m.data == Some(data)
    ensures m.aps.contentAvailable == Some(true)
    ensures "apns-push-type" in m.apnsHeaders && m.apnsHeaders["apns-push-type"] == "background"
    ensures "apns-priority" in m.apnsHeaders && m.apnsHeaders["apns-priority"] == "5"
  {
    PushMessage(token, None, Some(data), "high", None, Aps(None, None, Some(true)),
                map["apns-push-type" := "background", "apns-priority" := "5"])
  }

  /** What a send reports, and whether the token is to be pruned. */
  datatype Verdict = Verdict(result: bool, pruneToken: bool)

  /** A send is reported as successful exactly when the provider delivered
      it; only the not-registered error prunes the token. */
  function AfterSend(outcome: SendOutcome): (v: Verdict)
    ensures v.result <==> outcome.Delivered?
    ensures v.pruneToken <==> outcome == Failed(TokenNotRegistered)
    ensures v.pruneToken ==> !v.result
  {
    match outcome
    case Delivered(_) => Verdict(true, false)
    case Failed(code) => Verdict(false, code == TokenNotRegistered)
  }

  class PushGateway {
    /** Every message handed to the provider, in order. */
    var sent: seq<PushMessage>
    /** The provider's answer for each token. */
    const provider: string -> SendOutcome
    const devices: DeviceTable

    constructor (provider: string -> SendOutcome, devices: DeviceTable)
      ensures sent == [] && this.provider == provider && this.devices == devices
    {
      sent := [];
      this.provider := provider;
      this.devices := devices;
    }

    /** The send and the error path the two senders share. */
    method Send(m: PushMessage) returns (ok: bool)
      requires devices.Valid()
      modifies this, devices
      ensures devices.Valid()
      ensures sent == old(sent) + [m]
      ensures ok == AfterSend(provider(m.token)).result
      ensures devices.rows == (if AfterSend(provider(m.token)).pruneToken
                               then Filter(old(devices.rows), NotHolding(m.token)) else old(devices.rows))
      ensures devices.nextId == old(devices.nextId)
    {
      sent := sent + [m];
      var verdict := AfterSend(provider(m.token));
      if verdict.pruneToken {
        devices.RemoveByFcmToken(m.token);
      }
      ok := verdict.result;
    }

    /** `sendPushNotification`. An empty token is refused before the
        provider is contacted. */
    method SendPushNotification(token: string, title: string, body: string, data: Option<DataMap>)
      returns (ok: bool)
      requires devices.Valid()
      modifies this, devices
      ensures devices.Valid() && devices.nextId == old(devices.nextId)
      ensures token == "" ==> !ok && sent == old(sent) && devices.rows == old(devices.rows)
      ensures token != "" ==> sent == old(sent) + [NotificationMessage(token, title, body, data)]
      ensures token != "" ==> ok == provider(token).Delivered?
      ensures token != "" ==> devices.rows == (if provider(token) == Failed(TokenNotRegistered)
                                               then Filter(old(devices.rows), NotHolding(token)) else old(devices.rows))
    {
      if token == "" {
        return false;
      }
      ok := Send(NotificationMessage(token, title, body, data));
    }

    /** `sendDataNotification`. An empty token, and a missing or empty data
        payload, are refused before the provider is contacted. */
    method SendDataNotification(token: string, data: Option<DataMap>) returns (ok: bool)
      requires devices.Valid()
      modifies this, devices
      ensures devices.Valid() && devices.nextId == old(devices.nextId)
      ensures token == "" || data.None? || data.value == map[] ==>
                !ok && sent == old(sent) && devices.rows == old(devices.rows)
      ensures token != "" && data.Some? && data.value != map[] ==>
                sent == old(sent) + [DataMessage(token, data.value)] && ok == provider(token).Delivered?
                && devices.rows == (if provider(token) == Failed(TokenNotRegistered)
                                    then Filter(old(devices.rows), NotHolding(token)) else old(devices.rows))
    {
      if token == "" {
        return false;
      }
      if data.None? || data.value == map[] {
        return false;
      }
      ok := Send(DataMessage(token, data.value));
    }
  }
}
