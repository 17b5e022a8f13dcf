/**
 The values that travel through the presence service. Ids are opaque, the clock counts whole
 seconds, and the strings of JSON and SQL appear as the fields they encode.
 */
module PresenceTypes {
  import opened Wrappers

  type UserId = nat
  type DeviceId = string
  type RequestId = nat

  /** The lifetime, in seconds, of a presence entry, a device key and a device index. */
  const TTL := 300

  const ONLINE := "online"

  const OFFLINE := "offline"

  datatype UpdateRequest = UpdateRequest(
    userId: UserId,
    status: string,
    deviceId: DeviceId,
    ipAddress: Option<string>,
    userAgent: Option<string>,
    customStatus: Option<string>)

  datatype PresenceState = PresenceState(
    userId: UserId,
    status: string,
    deviceId: DeviceId,
    ipAddress: Option<string>,
    userAgent: Option<string>,
    customStatus: Option<string>,
    lastActive: int,
    expiresAt: int)

  datatype HistoryRow = HistoryRow(
    userId: UserId,
    deviceId: DeviceId,
    status: string,
    ipAddress: Option<string>,
    userAgent: Option<string>,
    createdAt: int)

  datatype PresenceUpdate = PresenceUpdate(
    userId: UserId,
    status: string,
    deviceId: DeviceId,
    lastActive: int,
    customStatus: Option<string>)

  datatype PresenceEvent = PresenceEvent(
    userId: UserId,
    status: string,
    deviceId: DeviceId,
    timestamp: int,
    customStatus: Option<string>)

  /** What one accepted request, stamped `now`, becomes in each store. */
  function StateOf(r: UpdateRequest, now: int): PresenceState {
    PresenceState(r.userId, r.status, r.deviceId, r.ipAddress, r.userAgent, r.customStatus, now, now + TTL)
  }

  function RowOf(r: UpdateRequest, now: int): HistoryRow {
    HistoryRow(r.userId, r.deviceId, r.status, r.ipAddress, r.userAgent, now)
  }

  function UpdateOf(r: UpdateRequest, now: int): PresenceUpdate {
    PresenceUpdate(r.userId, r.status, r.deviceId, now, r.customStatus)
  }

  function EventOf(r: UpdateRequest, now: int): PresenceEvent {
    PresenceEvent(r.userId, r.status, r.deviceId, now, r.customStatus)
  }
}
