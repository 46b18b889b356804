/** The download-then-upload step of the QR scripts with its bounded retry loop
    (`download_and_upload_qr_with_retry`). The network is an oracle: the outcomes of a
    record's successive attempts. Sleeps are recorded as their lengths in seconds. */
module QrRetry {
  import opened LarkData

  /** `MAX_RETRIES`: attempts per record. */
  const MaxRetries: nat := 3

  /** One attempt: an exception (timeout, connection error, an undecodable reply), or the
      download's status code with the upload reply's `code` and `data.file_token`. The upload
      fields are only read when the status is 200. A missing `code` is any non-zero code. */
  datatype Attempt = Errored | Answered(status: int, uploadCode: int, fileToken: Value)

  /** The world outside the pipeline: for every record the outcomes of its successive
      attempts, and the rendering of a millisecond timestamp as a date (`fromtimestamp`
      and `strftime("%Y-%m-%d")`, which depend on the local time zone). */
  datatype World = World(network: Record -> seq<Attempt>, formatDate: int -> string)

  /** An attempt whose download returned 200 and whose upload returned code 0. */
  predicate Succeeds(a: Attempt) {
    a.Answered? && a.status == 200 && a.uploadCode == 0
  }

  /** Attempt `k`; an attempt past the end of the oracle raises. */
  function AttemptAt(attempts: seq<Attempt>, k: nat): Attempt {
    if k < |attempts| then attempts[k] else Errored
  }

  /** What the loop returns when it is at attempt `k`. */
  function RetryFrom(attempts: seq<Attempt>, k: nat, maxRetries: nat): Value
    decreases maxRetries - k
  {
    if k >= maxRetries then Null
    else if Succeeds(AttemptAt(attempts, k)) then AttemptAt(attempts, k).fileToken
    else RetryFrom(attempts, k + 1, maxRetries)
  }

  /** The token `download_and_upload_qr_with_retry` returns (Null for None). */
  function RetryToken(attempts: seq<Attempt>, maxRetries: nat): Value {
    RetryFrom(attempts, 0, maxRetries)
  }

  lemma {:induction false} RetryFromFirstSuccess(attempts: seq<Attempt>, i: nat, k: nat, maxRetries: nat)
    requires i <= k < maxRetries
    requires Succeeds(AttemptAt(attempts, k))
    requires forall j :: i <= j < k ==> !Succeeds(AttemptAt(attempts, j))
    ensures RetryFrom(attempts, i, maxRetries) == AttemptAt(attempts, k).fileToken
    decreases k - i
  {
    if i < k {
      RetryFromFirstSuccess(attempts, i + 1, k, maxRetries);
    }
  }

  lemma {:induction false} RetryFromNoSuccess(attempts: seq<Attempt>, i: nat, maxRetries: nat)
    requires forall j :: i <= j < maxRetries ==> !Succeeds(AttemptAt(attempts, j))
    ensures RetryFrom(attempts, i, maxRetries) == Null
    decreases maxRetries - i
  {
    if i < maxRetries {
      RetryFromNoSuccess(attempts, i + 1, maxRetries);
    }
  }

  /** The result is the token of the first successful attempt among the first
      `maxRetries`, and None when every one of them fails. */
  lemma RetryTokenIsFirstSuccess(attempts: seq<Attempt>, maxRetries: nat)
    ensures forall k ::
      (0 <= k < maxRetries && Succeeds(AttemptAt(attempts, k)) &&
       (forall j :: 0 <= j < k ==> !Succeeds(AttemptAt(attempts, j)))) ==>
      RetryToken(attempts, maxRetries) == AttemptAt(attempts, k).fileToken
    ensures (forall j :: 0 <= j < maxRetries ==> !Succeeds(AttemptAt(attempts, j))) ==>
      RetryToken(attempts, maxRetries) == Null
  {
    forall k | 0 <= k < maxRetries && Succeeds(AttemptAt(attempts, k)) &&
      (forall j :: 0 <= j < k ==> !Succeeds(AttemptAt(attempts, j)))
      ensures RetryToken(attempts, maxRetries) == AttemptAt(attempts, k).fileToken
    {
      RetryFromFirstSuccess(attempts, 0, k, maxRetries);
    }
    if forall j :: 0 <= j < maxRetries ==> !Succeeds(AttemptAt(attempts, j)) {
      RetryFromNoSuccess(attempts, 0, maxRetries);
    }
  }

  /** The retry loop. Returns the token, the number of attempts made and the sleeps
      between them: at most `maxRetries` attempts, stopping early only at a success; a
      failed attempt `k` that is not the last is followed by a sleep of `k + 1` seconds. */
  method DownloadAndUploadWithRetry(attempts: seq<Attempt>, maxRetries: nat)
    returns (token: Value, made: nat, delays: seq<nat>)
    ensures token == RetryToken(attempts, maxRetries)
    ensures made <= maxRetries
    ensures forall j :: 0 <= j < made - 1 ==> !Succeeds(AttemptAt(attempts, j))
    ensures made < maxRetries ==> 0 < made && Succeeds(AttemptAt(attempts, made - 1))
    ensures 0 < made && Succeeds(AttemptAt(attempts, made - 1)) ==> token == AttemptAt(attempts, made - 1).fileToken
    ensures !(0 < made && Succeeds(AttemptAt(attempts, made - 1))) ==> token == Null
    ensures |delays| == (if made == 0 then 0 else made - 1)
    ensures forall j :: 0 <= j < |delays| ==> delays[j] == j + 1
  {
    token, made, delays := Null, 0, [];
    var attempt := 0;
    while attempt < maxRetries
      invariant attempt <= maxRetries
      invariant maxRetries == 0 || attempt < maxRetries
      invariant made == attempt
      invariant forall j :: 0 <= j < attempt ==> !Succeeds(AttemptAt(attempts, j))
      invariant RetryToken(attempts, maxRetries) == RetryFrom(attempts, attempt, maxRetries)
      invariant |delays| == attempt
      invariant forall j :: 0 <= j < |delays| ==> delays[j] == j + 1
    {
      var a := AttemptAt(attempts, attempt);
      made := made + 1;
      match a {
        case Errored =>
        case Answered(status, uploadCode, fileToken) =>
          if status == 200 && uploadCode == 0 {
            token := fileToken;
            return;
          }
      }
      if attempt < maxRetries - 1 {
        delays := delays + [attempt + 1];
      } else {
        RetryFromNoSuccess(attempts, attempt + 1, maxRetries);
        return;
      }
      attempt := attempt + 1;
    }
    RetryFromNoSuccess(attempts, attempt, maxRetries);
  }

  /** An item that fails its first two attempts and succeeds on the third is a success,
      after exactly `MAX_RETRIES` attempts and sleeps of 1 and 2 seconds. */
  method SucceedOnLastAttempt(attempts: seq<Attempt>) returns (token: Value, made: nat, delays: seq<nat>)
    requires !Succeeds(AttemptAt(attempts, 0)) && !Succeeds(AttemptAt(attempts, 1))
    requires Succeeds(AttemptAt(attempts, 2))
    ensures made == MaxRetries && token == AttemptAt(attempts, 2).fileToken && delays == [1, 2]
  {
    token, made, delays := DownloadAndUploadWithRetry(attempts, MaxRetries);
    assert made != 1 && made != 2;
  }

  /** An item whose three attempts all fail gets None, after three attempts and sleeps of
      1 and 2 seconds; there is no sleep after the last attempt. */
  method FailEveryAttempt(attempts: seq<Attempt>) returns (token: Value, made: nat, delays: seq<nat>)
    requires forall j :: 0 <= j < MaxRetries ==> !Succeeds(AttemptAt(attempts, j))
    ensures made == MaxRetries && token == Null && delays == [1, 2]
  {
    token, made, delays := DownloadAndUploadWithRetry(attempts, MaxRetries);
  }
}
