/** Device registration (src/services/deviceService.ts): decides whether a
    device's stored name or token is stale and delegates the write to the
    devices table's upsert. */
module DeviceRegistration {
  import opened Common
  import opened Devices

  /** `registerOrUpdateDevice` as a function on the table: an unknown device
      is upserted with the given token or `null`; a known one is upserted
      again, with the omitted token read as `null`, only when its name or its
      token differs; otherwise the stored row is returned. */
  function Register(t: Table, userId: int, deviceId: string, name: string, fcmToken: Option<string>,
                    now: Time, insertOk: bool): (r: (Table, Result<DeviceRow>))
  {
    match Find(t.rows, userId, deviceId)
    case Some(e) =>
      var needsUpdate := e.deviceName != name || fcmToken != e.fcmToken;
      if needsUpdate then Upsert(t, userId, deviceId, name, Given(fcmToken), now, insertOk)
      else (t, Ok(e))
    case None => Upsert(t, userId, deviceId, name, Given(fcmToken), now, insertOk)
  }

  /** Registration is the upsert with the token normalised to `null`: an
      omitted token is passed on as an explicit `null`. */
  lemma RegisterIsNormalisedUpsert(t: Table, userId: int, deviceId: string, name: string,
                                   fcmToken: Option<string>, now: Time, insertOk: bool)
    ensures Register(t, userId, deviceId, name, fcmToken, now, insertOk)
         == Upsert(t, userId, deviceId, name, Given(fcmToken), now, insertOk)
  {
    match Find(t.rows, userId, deviceId)
    case Some(e) =>
      if e.deviceName == name && fcmToken == e.fcmToken {
        assert !NameChanges(e, name) && !TokenChanges(e, Given(fcmToken));
      }
    case None =>
  }

  /** Re-registering with the same name and no token clears a stored token:
      the device row afterwards has none. */
  lemma OmittedTokenClears(t: Table, userId: int, deviceId: string, name: string, now: Time, insertOk: bool)
    requires WellFormed(t)
    ensures var r := Register(t, userId, deviceId, name, None, now, insertOk);
      r.1.Ok? ==> r.1.value.fcmToken.None? && Find(r.0.rows, userId, deviceId) == Some(r.1.value)
  {
    RegisterIsNormalisedUpsert(t, userId, deviceId, name, None, now, insertOk);
    UpsertWellFormed(t, userId, deviceId, name, Given(None), now, insertOk);
  }

  /** A known device with the same name and token is returned without a
      write. */
  lemma UnchangedRegistrationWritesNothing(t: Table, userId: int, deviceId: string, name: string,
                                          fcmToken: Option<string>, now: Time, insertOk: bool)
    requires Find(t.rows, userId, deviceId).Some?
    requires Find(t.rows, userId, deviceId).value.deviceName == name
    requires Find(t.rows, userId, deviceId).value.fcmToken == fcmToken
    ensures Register(t, userId, deviceId, name, fcmToken, now, insertOk) == (t, Ok(Find(t.rows, userId, deviceId).value))
  {
  }

  /** `registerOrUpdateDevice`. */
  method RegisterOrUpdateDevice(devices: DeviceTable, userId: int, deviceId: string, name: string,
                                fcmToken: Option<string>, now: Time, insertOk: bool)
    returns (r: Result<DeviceRow>)
    requires devices.Valid()
    modifies devices
    ensures devices.Valid()
    ensures (devices.Snap(), r) == Register(old(devices.Snap()), userId, deviceId, name, fcmToken, now, insertOk)
  {
    var device := devices.FindByDeviceId(userId, deviceId);
    if device.Some? {
      var needsUpdate := false;
      if device.value.deviceName != name {
        needsUpdate := true;
      }
      if fcmToken != device.value.fcmToken {
        needsUpdate := true;
      }
      if needsUpdate {
        r := devices.Create(userId, deviceId, name, Given(fcmToken), now, insertOk);
      } else {
        r := Ok(device.value);
      }
    } else {
      r := devices.Create(userId, deviceId, name, Given(fcmToken), now, insertOk);
    }
  }

  /** `updateDeviceFcmToken`: the devices table's token update. */
  method UpdateDeviceFcmToken(devices: DeviceTable, userId: int, deviceId: string, token: string, now: Time)
    returns (d: Option<DeviceRow>)
    requires devices.Valid()
    modifies devices
    ensures devices.Valid()
    ensures devices.rows == SetTokenRows(old(devices.rows), userId, deviceId, token, now)
    ensures d == Find(devices.rows, userId, deviceId)
    ensures d.Some? ==> d.value.fcmToken == Some(token)
  {
    d := devices.UpdateFcmToken(userId, deviceId, token, now);
  }
}
