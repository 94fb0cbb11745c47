/** `AlertService`: builds alerts about snapshot verification and the
    listener, and reports each one at the log level its severity calls for.
    The service has no state; delivery is logging only. */
module AlertService {
  import opened Wrappers
  import opened Numbers
  import opened Storage

  datatype AlertSeverity = Info | Warning | Error | Critical

  datatype AlertType =
    | VerificationFailed(epoch: U64, expectedHash: string, actualHash: string)
    | MissingSnapshot(epoch: U64)
    | ListenerFailure(error: string)
    | UnauthorizedSubmission(epoch: U64, submitter: string)

  datatype Alert = Alert(alertType: AlertType, severity: AlertSeverity, message: string, timestamp: Time)

  /** The `tracing` macro an alert is reported with. */
  datatype LogLevel = InfoLevel | WarnLevel | ErrorLevel

  /** What `send_alert` emits: one log record at a level, carrying the alert. */
  datatype LogRecord = LogRecord(level: LogLevel, severity: AlertSeverity, message: string, alertType: AlertType)

  /** The failure `send_alert` could report; the current implementation never does. */
  datatype SendError = DeliveryFailed

  /** The severity each kind of alert is raised with: a hash mismatch and an
      unauthorized submission are critical, a listener failure is an error, a
      missing snapshot a warning, and nothing is merely informational. */
  function SeverityOf(t: AlertType): (s: AlertSeverity)
    ensures s == Critical <==> t.VerificationFailed? || t.UnauthorizedSubmission?
    ensures s == Error <==> t.ListenerFailure?
    ensures s == Warning <==> t.MissingSnapshot?
    ensures s != Info
  {
    match t
    case VerificationFailed(_, _, _) => Critical
    case MissingSnapshot(_) => Warning
    case ListenerFailure(_) => Error
    case UnauthorizedSubmission(_, _) => Critical
  }

  /** `send_alert`: Critical and Error go to the error log, Warning to the
      warning log, Info to the info log; the call always succeeds. */
  function SendAlert(a: Alert): (r: Result<LogRecord, SendError>)
    ensures r.Ok?
    ensures r.value.level == ErrorLevel <==> a.severity == Critical || a.severity == Error
    ensures r.value.level == WarnLevel <==> a.severity == Warning
    ensures r.value.level == InfoLevel <==> a.severity == Info
    ensures r.value.severity == a.severity && r.value.message == a.message && r.value.alertType == a.alertType
  {
    var level := match a.severity
      case Critical => ErrorLevel
      case Error => ErrorLevel
      case Warning => WarnLevel
      case Info => InfoLevel;
    Ok(LogRecord(level, a.severity, a.message, a.alertType))
  }

  const VERIFICATION_FAILED_PREFIX: string := "Snapshot verification failed for epoch "
  const MISSING_SNAPSHOT_PREFIX: string := "No snapshot found in database for epoch "
  const LISTENER_FAILURE_PREFIX: string := "Contract event listener failed: "
  const UNAUTHORIZED_PREFIX: string := "Unauthorized snapshot submission detected for epoch "

  /** The alert `alert_verification_failed` sends. */
  function VerificationFailedAlert(epoch: U64, expectedHash: string, actualHash: string, now: Time): (a: Alert)
    ensures a.alertType == VerificationFailed(epoch, expectedHash, actualHash)
    ensures a.severity == Critical && a.severity == SeverityOf(a.alertType)
    ensures a.timestamp == now
    ensures VERIFICATION_FAILED_PREFIX <= a.message
  {
    Alert(VerificationFailed(epoch, expectedHash, actualHash), Critical,
          VERIFICATION_FAILED_PREFIX + ToDecimal(epoch) + ". Expected hash: " + expectedHash
            + ", Actual hash: " + actualHash,
          now)
  }

  /** The alert `alert_missing_snapshot` sends. */
  function MissingSnapshotAlert(epoch: U64, now: Time): (a: Alert)
    ensures a.alertType == MissingSnapshot(epoch)
    ensures a.severity == Warning && a.severity == SeverityOf(a.alertType)
    ensures a.timestamp == now
    ensures MISSING_SNAPSHOT_PREFIX <= a.message
  {
    Alert(MissingSnapshot(epoch), Warning, MISSING_SNAPSHOT_PREFIX + ToDecimal(epoch), now)
  }

  /** The alert `alert_listener_failure` sends. */
  function ListenerFailureAlert(error: string, now: Time): (a: Alert)
    ensures a.alertType == ListenerFailure(error)
    ensures a.severity == Error && a.severity == SeverityOf(a.alertType)
    ensures a.timestamp == now
    ensures a.message == LISTENER_FAILURE_PREFIX + error
  {
    Alert(ListenerFailure(error), Error, LISTENER_FAILURE_PREFIX + error, now)
  }

  /** The alert `alert_unauthorized_submission` sends. */
  function UnauthorizedSubmissionAlert(epoch: U64, submitter: string, now: Time): (a: Alert)
    ensures a.alertType == UnauthorizedSubmission(epoch, submitter)
    ensures a.severity == Critical && a.severity == SeverityOf(a.alertType)
    ensures a.timestamp == now
    ensures UNAUTHORIZED_PREFIX <= a.message
  {
    Alert(UnauthorizedSubmission(epoch, submitter), Critical,
          UNAUTHORIZED_PREFIX + ToDecimal(epoch) + " from " + submitter, now)
  }

  /** The epoch in a missing-snapshot message can be read back from it. */
  lemma MissingSnapshotMessageNamesEpoch(epoch: U64, now: Time)
    ensures ParseU64(MissingSnapshotAlert(epoch, now).message[|MISSING_SNAPSHOT_PREFIX|..]) == Some(epoch)
  {
    var m := MissingSnapshotAlert(epoch, now).message;
    assert m[|MISSING_SNAPSHOT_PREFIX|..] == ToDecimal(epoch);
    ParseToDecimal(epoch);
  }

  /** Each of the four alerts is sent successfully, and only the missing
      snapshot alert is logged below error level. */
  lemma AlertLevels(epoch: U64, expectedHash: string, actualHash: string, error: string, submitter: string, now: Time)
    ensures SendAlert(VerificationFailedAlert(epoch, expectedHash, actualHash, now)).value.level == ErrorLevel
    ensures SendAlert(MissingSnapshotAlert(epoch, now)).value.level == WarnLevel
    ensures SendAlert(ListenerFailureAlert(error, now)).value.level == ErrorLevel
    ensures SendAlert(UnauthorizedSubmissionAlert(epoch, submitter, now)).value.level == ErrorLevel
  {
  }
}
