/**
 * The state behind the converter page (frontend/src/components/
 * CodeConverter.js) without its rendering: the submit handler with its
 * blank-input guard, the newest-first version history, restoring a version,
 * the deploy handler, and the messages shown for failed requests.
 *
 * Each async handler is split at its `await`: a Begin method runs the
 * synchronous part, a Finish method applies the request's outcome, which is
 * a parameter (as is `Date.now()`); the Handle method runs both in turn.
 */
module CodeConverter {
  import opened Wrappers
  import opened Text

  /** The history keeps at most this many versions (`.slice(0, 10)`). */
  const MaxVersions: nat := 10

  /** One entry of the history. */
  datatype Version = Version(timestamp: int, clarityCode: string)

  /** JavaScript's `x || ''` for an optional string. */
  function OrEmpty(x: Option<string>): (r: string)
    ensures x.Some? && x.value != [] ==> r == x.value
    ensures x.None? || x.value == [] ==> r == []
  {
    if x.Some? then x.value else []
  }

  function Min(a: int, b: int): int {
    if a <= b then a else b
  }

  /** `[newVersion, ...prev].slice(0, 10)`. */
  function PushVersion(versions: seq<Version>, v: Version): (r: seq<Version>)
    ensures |r| == Min(|versions| + 1, MaxVersions)
    ensures r[0] == v
    ensures forall i :: 1 <= i < |r| ==> r[i] == versions[i - 1]
  {
    ([v] + versions)[..Min(|versions| + 1, MaxVersions)]
  }

  /**
   * The history kept under the cap: the new entry in front, the older ones
   * after it in their order, and only the oldest is dropped.
   */
  lemma PushVersionKeepsOrder(versions: seq<Version>, v: Version)
    requires |versions| <= MaxVersions
    ensures |versions| < MaxVersions ==> PushVersion(versions, v) == [v] + versions
    ensures |versions| == MaxVersions ==>
      PushVersion(versions, v) == [v] + versions[..MaxVersions - 1]
  {
    var r := PushVersion(versions, v);
    if |versions| < MaxVersions {
      assert r == [v] + versions;
    } else {
      assert r == [v] + versions[..MaxVersions - 1];
    }
  }

  /** The versions in reverse order (newest first). */
  function Reverse(vs: seq<Version>): (r: seq<Version>)
    ensures |r| == |vs|
    ensures forall i :: 0 <= i < |vs| ==> r[i] == vs[|vs| - 1 - i]
  {
    if vs == [] then [] else [vs[|vs| - 1]] + Reverse(vs[..|vs| - 1])
  }

  /** The history after pushing `vs` one by one, oldest first. */
  function PushAll(versions: seq<Version>, vs: seq<Version>): (r: seq<Version>)
    ensures |versions| <= MaxVersions ==> |r| <= MaxVersions
    ensures vs != [] ==> r != [] && r[0] == vs[|vs| - 1]
    decreases |vs|
  {
    if vs == [] then versions
    else PushVersion(PushAll(versions, vs[..|vs| - 1]), vs[|vs| - 1])
  }

  /**
   * After any run of successful conversions the history is the newest ten
   * of all versions ever made, newest first.
   */
  lemma {:induction false} PushAllIsNewestFirst(versions: seq<Version>, vs: seq<Version>)
    requires |versions| <= MaxVersions
    ensures PushAll(versions, vs) ==
      (Reverse(vs) + versions)[..Min(|vs| + |versions|, MaxVersions)]
    decreases |vs|
  {
    if vs != [] {
      var vs' := vs[..|vs| - 1];
      var v := vs[|vs| - 1];
      PushAllIsNewestFirst(versions, vs');
      var all' := Reverse(vs') + versions;
      var n' := Min(|vs'| + |versions|, MaxVersions);
      var before := PushAll(versions, vs');
      assert |before| == n';
      assert PushAll(versions, vs) == ([v] + before)[..Min(n' + 1, MaxVersions)];
      assert Reverse(vs) + versions == [v] + all';
      PrefixUnderCons(v, all', n', Min(|vs| + |versions|, MaxVersions));
    }
  }

  /** Cutting before or after putting `v` in front agrees on the first `j`. */
  lemma PrefixUnderCons(v: Version, s: seq<Version>, k: nat, j: nat)
    requires k <= |s| && j <= k + 1
    ensures ([v] + s[..k])[..j] == ([v] + s)[..j]
  {
  }

  // ---------------------------------------------------------------------------
  // Request failures and the messages shown for them
  // ---------------------------------------------------------------------------

  /** The body of an error response as far as it is read: its `error` field. */
  datatype ServerReply = ServerReply(error: Option<string>)

  /**
   * An axios error: `err.code`, `err.response` (present when the server
   * answered), whether `err.request` was sent, and `err.message`.
   */
  datatype RequestError = RequestError(
    code: Option<string>,
    response: Option<ServerReply>,
    requestMade: bool,
    message: string)

  // The fixed messages are written as their opening words plus the rest, so
  // that the opening words can be read back (KindOfMessage).
  const NetworkOpening: string := "Network error:"
  const NetworkMessage: string :=
    NetworkOpening + " Unable to connect to the server. Please check if the backend server is running."
  const NoResponseOpening: string := "No response from server."
  const NoResponseMessage: string :=
    NoResponseOpening + " Please check if the backend server is running."
  const ServerPrefix: string := "Server error: "
  const ErrorPrefix: string := "Error: "
  const UnknownServerError: string := "Unknown server error"

  /** The four cases the submit handler tells apart, in its order. */
  datatype ErrorKind = NetworkFailure | ServerFailure | NoResponse | SetupFailure

  function KindOf(err: RequestError): (k: ErrorKind)
    ensures k == NetworkFailure <==> err.code == Some("ERR_NETWORK")
    ensures k == ServerFailure <==> err.code != Some("ERR_NETWORK") && err.response.Some?
    ensures k == NoResponse <==>
      err.code != Some("ERR_NETWORK") && err.response.None? && err.requestMade
  {
    if err.code == Some("ERR_NETWORK") then NetworkFailure
    else if err.response.Some? then ServerFailure
    else if err.requestMade then NoResponse
    else SetupFailure
  }

  /** The message `handleSubmit` shows for a failed conversion request. */
  function SubmitErrorMessage(err: RequestError): (m: string)
    ensures KindOf(err) == NetworkFailure ==> m == NetworkMessage
    ensures KindOf(err) == ServerFailure ==>
      var e := err.response.value.error;
      m == ServerPrefix + (if e.Some? && e.value != [] then e.value else UnknownServerError)
    ensures KindOf(err) == NoResponse ==> m == NoResponseMessage
    ensures KindOf(err) == SetupFailure ==> m == ErrorPrefix + err.message
  {
    match KindOf(err)
    case NetworkFailure => NetworkMessage
    case ServerFailure =>
      var e := OrEmpty(err.response.value.error);
      ServerPrefix + (if e != [] then e else UnknownServerError)
    case NoResponse => NoResponseMessage
    case SetupFailure => ErrorPrefix + err.message
  }

  /** Reads the case back off a shown message by its opening words. */
  function KindOfMessage(m: string): ErrorKind {
    if StartsWith(m, NetworkOpening) then NetworkFailure
    else if StartsWith(m, ServerPrefix) then ServerFailure
    else if StartsWith(m, NoResponseOpening) then NoResponse
    else SetupFailure
  }

  /**
   * The messages of different cases never look alike: the case can be read
   * back from any message, and none is empty.
   */
  lemma MessageRevealsKind(err: RequestError)
    ensures KindOfMessage(SubmitErrorMessage(err)) == KindOf(err)
    ensures SubmitErrorMessage(err) != []
  {
    var m := SubmitErrorMessage(err);
    assert NetworkOpening[0] == 'N' && NetworkOpening[1] == 'e';
    assert NoResponseOpening[0] == 'N' && NoResponseOpening[1] == 'o';
    assert ServerPrefix[0] == 'S' && ErrorPrefix[0] == 'E';
    match KindOf(err)
    case NetworkFailure =>
      assert m[..|NetworkOpening|] == NetworkOpening;
    case ServerFailure =>
      assert m[..|ServerPrefix|] == ServerPrefix;
      assert m[0] == 'S';
    case NoResponse =>
      assert m[..|NoResponseOpening|] == NoResponseOpening;
      assert m[0] == 'N' && m[1] == 'o';
    case SetupFailure =>
      assert m[0] == 'E';
  }

  /** A deploy failure: the server's reply, if any, and `err.message`. */
  datatype DeployError = DeployError(response: Option<ServerReply>, message: string)

  const DeployFailed: string := "Deploy failed"

  /** `err.response?.data?.error || err.message || 'Deploy failed'`. */
  function DeployErrorMessage(err: DeployError): (m: string)
    ensures m != []
    ensures err.response.Some? && OrEmpty(err.response.value.error) != [] ==>
      m == err.response.value.error.value
    ensures (err.response.None? || OrEmpty(err.response.value.error) == []) ==>
      m == (if err.message != [] then err.message else DeployFailed)
  {
    var fromServer := if err.response.Some? then OrEmpty(err.response.value.error) else [];
    if fromServer != [] then fromServer
    else if err.message != [] then err.message
    else DeployFailed
  }

  // ---------------------------------------------------------------------------
  // The component state
  // ---------------------------------------------------------------------------

  /** What a conversion request gave back. */
  datatype ConvertOutcome =
    | Converted(clarityCode: Option<string>)  // `response.data.clarityCode`
    | ConvertFailed(err: RequestError)

  /** What a deploy request gave back; the reply body is kept as text. */
  datatype DeployOutcome =
    | Deployed(data: string)
    | DeployRejected(err: DeployError)

  const BlankInputMessage: string := "Please enter Solidity code to convert"

  /** The component's state variables. */
  class ConverterState {
    var solidityCode: string
    var clarityCode: string
    var versions: seq<Version>
    var selectedVersionIndex: Option<int>
    var isLoading: bool
    var isDeploying: bool
    var error: string
    var deployResult: Option<string>

    /** At most ten versions are kept, and every one holds code. */
    predicate Valid()
      reads this
    {
      |versions| <= MaxVersions &&
      forall i :: 0 <= i < |versions| ==> versions[i].clarityCode != []
    }

    /** The `useState` initial values. */
    constructor ()
      ensures Valid()
      ensures solidityCode == [] && clarityCode == [] && versions == []
      ensures selectedVersionIndex == None && !isLoading && !isDeploying
      ensures error == [] && deployResult == None
    {
      solidityCode := [];
      clarityCode := [];
      versions := [];
      selectedVersionIndex := None;
      isLoading := false;
      isDeploying := false;
      error := [];
      deployResult := None;
    }

    /** The editor's `onChange`. */
    method SetSolidityCode(text: string)
      requires Valid()
      modifies this
      ensures Valid()
      ensures solidityCode == text
      ensures clarityCode == old(clarityCode) && versions == old(versions)
      ensures selectedVersionIndex == old(selectedVersionIndex)
      ensures isLoading == old(isLoading) && isDeploying == old(isDeploying)
      ensures error == old(error) && deployResult == old(deployResult)
    {
      solidityCode := text;
    }

    /**
     * `handleSubmit` up to its request: blank input only sets the error;
     * otherwise loading starts and the error and the output are cleared.
     */
    method BeginSubmit() returns (started: bool)
      requires Valid()
      modifies this
      ensures Valid()
      ensures started <==> !AllSpace(solidityCode)
      ensures !started ==>
        error == BlankInputMessage && clarityCode == old(clarityCode) && isLoading == old(isLoading)
      ensures started ==> isLoading && error == [] && clarityCode == []
      ensures solidityCode == old(solidityCode) && versions == old(versions)
      ensures selectedVersionIndex == old(selectedVersionIndex)
      ensures isDeploying == old(isDeploying) && deployResult == old(deployResult)
    {
      TrimEmptyIffAllSpace(solidityCode);
      if Trim(solidityCode) == [] {
        error := BlankInputMessage;
        return false;
      }
      isLoading := true;
      error := [];
      clarityCode := [];
      return true;
    }

    /**
     * `handleSubmit` after its request, at time `now`: non-empty output
     * becomes the newest version and is selected; a failure sets the message
     * for its kind. Loading ends either way.
     */
    method FinishSubmit(outcome: ConvertOutcome, now: int)
      requires Valid()
      modifies this
      ensures Valid()
      ensures !isLoading
      ensures outcome.Converted? ==>
        var output := OrEmpty(outcome.clarityCode);
        clarityCode == output && error == old(error) &&
        (output != [] ==>
          versions == PushVersion(old(versions), Version(now, output)) &&
          selectedVersionIndex == Some(0) && versions[0].clarityCode == clarityCode) &&
        (output == [] ==>
          versions == old(versions) && selectedVersionIndex == old(selectedVersionIndex))
      ensures outcome.ConvertFailed? ==>
        error == SubmitErrorMessage(outcome.err) && clarityCode == old(clarityCode) &&
        versions == old(versions) && selectedVersionIndex == old(selectedVersionIndex)
      ensures solidityCode == old(solidityCode)
      ensures isDeploying == old(isDeploying) && deployResult == old(deployResult)
    {
      match outcome {
        case Converted(reply) =>
          var output := OrEmpty(reply);
          clarityCode := output;
          if output != [] {
            var newVersion := Version(now, output);
            versions := PushVersion(versions, newVersion);
            selectedVersionIndex := Some(0);
          }
        case ConvertFailed(err) =>
          error := SubmitErrorMessage(err);
      }
      isLoading := false;
    }

    /** `handleSubmit` when no other event comes between request and reply. */
    method HandleSubmit(outcome: ConvertOutcome, now: int)
      requires Valid()
      modifies this
      ensures Valid()
      ensures AllSpace(old(solidityCode)) ==>
        error == BlankInputMessage && clarityCode == old(clarityCode) &&
        versions == old(versions) && selectedVersionIndex == old(selectedVersionIndex) &&
        isLoading == old(isLoading)
      ensures !AllSpace(old(solidityCode)) ==> !isLoading
      ensures !AllSpace(old(solidityCode)) && outcome.Converted? ==>
        var output := OrEmpty(outcome.clarityCode);
        error == [] && clarityCode == output &&
        (output != [] ==>
          versions == PushVersion(old(versions), Version(now, output)) &&
          selectedVersionIndex == Some(0)) &&
        (output == [] ==>
          versions == old(versions) && selectedVersionIndex == old(selectedVersionIndex))
      ensures !AllSpace(old(solidityCode)) && outcome.ConvertFailed? ==>
        error == SubmitErrorMessage(outcome.err) && clarityCode == [] &&
        versions == old(versions) && selectedVersionIndex == old(selectedVersionIndex)
      ensures solidityCode == old(solidityCode)
      ensures isDeploying == old(isDeploying) && deployResult == old(deployResult)
    {
      var started := BeginSubmit();
      if started {
        FinishSubmit(outcome, now);
      }
    }

    /**
     * `handleRestoreVersion(index)`: the index is selected as given, and the
     * output shows that version's code, or nothing when there is no such
     * version.
     */
    method RestoreVersion(index: int)
      requires Valid()
      modifies this
      ensures Valid()
      ensures selectedVersionIndex == Some(index)
      ensures 0 <= index < |versions| ==> clarityCode == versions[index].clarityCode
      ensures !(0 <= index < |versions|) ==> clarityCode == []
      ensures 0 <= index < |versions| ==> clarityCode != []
      ensures solidityCode == old(solidityCode) && versions == old(versions)
      ensures isLoading == old(isLoading) && isDeploying == old(isDeploying)
      ensures error == old(error) && deployResult == old(deployResult)
    {
      selectedVersionIndex := Some(index);
      if 0 <= index < |versions| {
        clarityCode := OrEmpty(Some(versions[index].clarityCode));
      } else {
        clarityCode := [];
      }
    }

    /**
     * `handleDeploy` up to its request: nothing at all happens when the
     * output is blank; otherwise deploying starts and the previous result
     * and error are cleared.
     */
    method BeginDeploy() returns (started: bool)
      requires Valid()
      modifies this
      ensures Valid()
      ensures started <==> !AllSpace(clarityCode)
      ensures started ==> isDeploying && deployResult == None && error == []
      ensures !started ==>
        isDeploying == old(isDeploying) && deployResult == old(deployResult) && error == old(error)
      ensures solidityCode == old(solidityCode) && clarityCode == old(clarityCode)
      ensures versions == old(versions) && selectedVersionIndex == old(selectedVersionIndex)
      ensures isLoading == old(isLoading)
    {
      TrimEmptyIffAllSpace(clarityCode);
      if Trim(clarityCode) == [] {
        return false;
      }
      isDeploying := true;
      deployResult := None;
      error := [];
      return true;
    }

    /** `handleDeploy` after its request: the reply or the error is shown. */
    method FinishDeploy(outcome: DeployOutcome)
      requires Valid()
      modifies this
      ensures Valid()
      ensures !isDeploying
      ensures outcome.Deployed? ==> deployResult == Some(outcome.data) && error == old(error)
      ensures outcome.DeployRejected? ==>
        error == DeployErrorMessage(outcome.err) && deployResult == old(deployResult)
      ensures solidityCode == old(solidityCode) && clarityCode == old(clarityCode)
      ensures versions == old(versions) && selectedVersionIndex == old(selectedVersionIndex)
      ensures isLoading == old(isLoading)
    {
      match outcome {
        case Deployed(data) =>
          deployResult := Some(data);
        case DeployRejected(err) =>
          error := DeployErrorMessage(err);
      }
      isDeploying := false;
    }

    /** `handleDeploy` when no other event comes between request and reply. */
    method HandleDeploy(outcome: DeployOutcome)
      requires Valid()
      modifies this
      ensures Valid()
      ensures AllSpace(old(clarityCode)) ==>
        isDeploying == old(isDeploying) && deployResult == old(deployResult) && error == old(error)
      ensures !AllSpace(old(clarityCode)) ==> !isDeploying
      ensures !AllSpace(old(clarityCode)) && outcome.Deployed? ==>
        deployResult == Some(outcome.data) && error == []
      ensures !AllSpace(old(clarityCode)) && outcome.DeployRejected? ==>
        error == DeployErrorMessage(outcome.err) && error != [] && deployResult == None
      ensures solidityCode == old(solidityCode) && clarityCode == old(clarityCode)
      ensures versions == old(versions) && selectedVersionIndex == old(selectedVersionIndex)
      ensures isLoading == old(isLoading)
    {
      var started := BeginDeploy();
      if started {
        FinishDeploy(outcome);
      }
    }
  }
}
