/**
 * The application's session: the chat messages, the append-only version
 * history, the index of the current version, and the loading flag, with the
 * submit, rollback and clear handlers that change them.
 */
module Session {
  import opened Wrappers
  import opened Strings
  import opened Types
  import Chat

  /** The index is -1 exactly when there are no versions; otherwise it names one. */
  predicate IndexOk(versions: seq<CodeVersion>, index: int)
    ensures IndexOk(versions, index) <==>
              CurrentVersion(versions, index).Some? || (versions == [] && index == -1)
    ensures IndexOk(versions, index) ==> (CurrentVersion(versions, index).None? <==> versions == [])
  {
    (index == -1 && versions == []) || 0 <= index < |versions|
  }

  /** `currentVersion`: the version the index names, if it names one. */
  function CurrentVersion(versions: seq<CodeVersion>, index: int): (r: Option<CodeVersion>)
    ensures r.Some? <==> 0 <= index < |versions|
    ensures r.Some? ==> r.value == versions[index]
  {
    if 0 <= index < |versions| then Some(versions[index]) else None
  }

  /** The code handed to the preview panel: the current version's, or "" when none. */
  function PreviewCode(versions: seq<CodeVersion>, index: int): (code: string)
    ensures 0 <= index < |versions| ==> code == versions[index].code
    ensures !(0 <= index < |versions|) ==> code == ""
  {
    match CurrentVersion(versions, index)
    case Some(v) => v.code
    case None => ""
  }

  /**
   * The request a submit sends: the prompt, the current code unless there is no
   * version or its code is empty, and the current blueprint unless there is no
   * version or it has none (`x || null`; a blueprint object is always truthy).
   */
  function RequestFor(content: string, current: Option<CodeVersion>): (r: GenerateRequest)
    ensures r.prompt == content
    ensures r.currentCode.Some? <==> current.Some? && current.value.code != ""
    ensures r.currentCode.Some? ==> r.currentCode.value == current.value.code
    ensures current.None? ==> r.currentBlueprint.None?
    ensures current.Some? ==> r.currentBlueprint == current.value.blueprint
  {
    match current
    case None => GenerateRequest(content, None, None)
    case Some(v) => GenerateRequest(content, if v.code == "" then None else Some(v.code), v.blueprint)
  }

  /**
   * The index update after a successful generation: the version count captured when
   * the submit began if the index (read at completion) is set, otherwise 0.
   */
  function NextIndex(prev: int, capturedCount: nat): (r: nat)
    ensures prev >= 0 ==> r == capturedCount
    ensures prev < 0 ==> r == 0
  {
    if prev >= 0 then capturedCount else 0
  }

  /**
   * When the captured count is still the length of the history, or the index was
   * reset by a clear (so the history is empty), the update points at the version
   * appended at the physical end.
   */
  lemma NextIndexIsNewLast(versions: seq<CodeVersion>, prev: int, capturedCount: nat)
    requires IndexOk(versions, prev)
    requires prev == -1 || capturedCount == |versions|
    ensures NextIndex(prev, capturedCount) == |versions|
  {
  }

  /**
   * The index update trusts a count captured when the submit began. A count larger
   * than the history (a clear ran after the capture and another generation refilled
   * it) leaves the index past the end.
   */
  lemma StaleCountLeavesIndexOutOfRange(versions: seq<CodeVersion>, prev: int, capturedCount: nat, v: CodeVersion)
    requires prev >= 0 && capturedCount > |versions|
    ensures !IndexOk(versions + [v], NextIndex(prev, capturedCount))
  {
  }

  /**
   * A count smaller than the history (another generation committed after the capture)
   * keeps the index in range but on an older version, not on the one just appended.
   */
  lemma StaleCountMissesNewVersion(versions: seq<CodeVersion>, prev: int, capturedCount: nat, v: CodeVersion)
    requires IndexOk(versions, prev) && prev >= 0 && capturedCount < |versions|
    ensures IndexOk(versions + [v], NextIndex(prev, capturedCount))
    ensures NextIndex(prev, capturedCount) != |versions|
  {
  }

  const ERROR_PREFIX := "\U{274C} Error: "
  const ERROR_FALLBACK := "Something went wrong. Is the backend running?"
  const SAFETY_PREFIX := "\U{26A0}\U{FE0F} Safety check: "
  const ROLLBACK_PREFIX := "\U{1F504} Rolled back to version "

  /** The failure notice: the error's message, or the fixed fallback for anything else thrown. */
  function ErrorText(message: Option<string>): (r: string)
    ensures |r| >= |ERROR_PREFIX| && r[..|ERROR_PREFIX|] == ERROR_PREFIX
    ensures r[|ERROR_PREFIX|..] == message.GetOr(ERROR_FALLBACK)
  {
    ERROR_PREFIX + message.GetOr(ERROR_FALLBACK)
  }

  /** The safety notice: the violations joined by single spaces. */
  function SafetyText(violations: seq<string>): (r: string)
    ensures |r| >= |SAFETY_PREFIX| && r[..|SAFETY_PREFIX|] == SAFETY_PREFIX
    ensures r[|SAFETY_PREFIX|..] == Join(violations, " ")
  {
    SAFETY_PREFIX + Join(violations, " ")
  }

  /**
   * The rollback notice: the fixed prefix, the one-based version number in decimal,
   * then the version's prompt in double quotes after a colon and a space.
   */
  function RollbackText(index: nat, prompt: string): (r: string)
    ensures |r| > |ROLLBACK_PREFIX| + |prompt| + 4
    ensures r[..|ROLLBACK_PREFIX|] == ROLLBACK_PREFIX
    ensures r[|r| - |prompt| - 4..] == ": \"" + prompt + "\""
    ensures var digits := r[|ROLLBACK_PREFIX|..|r| - |prompt| - 4];
            AllDigits(digits) && digits[0] != '0' && DigitsValue(digits) == index + 1
  {
    var digits := NatToString(index + 1);
    NatToStringRoundTrip(index + 1);
    var tail := ": \"" + prompt + "\"";
    var r := ROLLBACK_PREFIX + digits + tail;
    assert r[..|ROLLBACK_PREFIX|] == ROLLBACK_PREFIX;
    assert r[|r| - |tail|..] == tail;
    assert r[|ROLLBACK_PREFIX|..|r| - |tail|] == digits;
    r
  }

  /** Rollbacks to different versions with the same prompt leave different notices. */
  lemma RollbackTextInjective(i: nat, j: nat, prompt: string)
    requires i != j
    ensures RollbackText(i, prompt) != RollbackText(j, prompt)
  {
  }

  /** The messages a successful generation appends: the explanation, then the safety notice if any. */
  function ReplyMessages(response: GenerateResponse, replyStamp: Stamp, noticeStamp: Stamp): (r: seq<ChatMessage>)
    ensures |r| == if response.violations == [] then 1 else 2
    ensures r[0] == ChatMessage(replyStamp.id, Assistant, response.explanation, replyStamp.time)
    ensures |r| == 2 ==> r[1] == ChatMessage(noticeStamp.id, System, SafetyText(response.violations), noticeStamp.time)
  {
    [ChatMessage(replyStamp.id, Assistant, response.explanation, replyStamp.time)]
    + if |response.violations| > 0
      then [ChatMessage(noticeStamp.id, System, SafetyText(response.violations), noticeStamp.time)]
      else []
  }

  /** What a submit captures when it begins: the history length and the request it sends. */
  datatype Snapshot = Snapshot(versionCount: nat, request: GenerateRequest)

  class App {
    var messages: seq<ChatMessage>
    var versions: seq<CodeVersion>
    var currentVersionIndex: int
    var isLoading: bool
    /** The snapshot of the submit whose generation call has not settled yet. */
    ghost var pending: Option<Snapshot>

    /**
     * The index invariant, plus: a pending submit exactly while loading, and its
     * captured count still the history length unless a clear reset the index.
     */
    ghost predicate Valid()
      reads this
    {
      && IndexOk(versions, currentVersionIndex)
      && (isLoading <==> pending.Some?)
      && (pending.Some? ==> currentVersionIndex == -1 || pending.value.versionCount == |versions|)
    }

    /** Under the invariant, a pending submit completing now lands on the version it appends. */
    lemma ValidPendingLandsOnNewVersion()
      requires Valid() && pending.Some?
      ensures NextIndex(currentVersionIndex, pending.value.versionCount) == |versions|
    {
      NextIndexIsNewLast(versions, currentVersionIndex, pending.value.versionCount);
    }

    /** The three persisted cells at their defaults, and not loading. */
    constructor ()
      ensures Valid()
      ensures messages == [] && versions == [] && currentVersionIndex == -1 && !isLoading
    {
      messages, versions, currentVersionIndex, isLoading := [], [], -1, false;
      pending := None;
    }

    /**
     * First half of `handleSendMessage`: append the user's message, set loading, and
     * send the request built from the current version. The handler has no guard of
     * its own; its one caller, the chat panel, never submits while loading.
     */
    method BeginSubmit(content: string, stamp: Stamp) returns (snap: Snapshot)
      requires Valid() && !isLoading
      modifies this
      ensures Valid() && isLoading && pending == Some(snap)
      ensures messages == old(messages) + [ChatMessage(stamp.id, User, content, stamp.time)]
      ensures versions == old(versions) && currentVersionIndex == old(currentVersionIndex)
      ensures snap.versionCount == |versions|
      ensures snap.request == RequestFor(content, CurrentVersion(versions, currentVersionIndex))
    {
      var request := RequestFor(content, CurrentVersion(versions, currentVersionIndex));
      snap := Snapshot(|versions|, request);
      messages := messages + [ChatMessage(stamp.id, User, content, stamp.time)];
      isLoading := true;
      pending := Some(snap);
    }

    /**
     * Second half of `handleSendMessage`, when the generation call settles. On a
     * response: append the new version at the physical end, point at it, append the
     * explanation and, if there are violations, the safety notice. On a failure:
     * append the error notice and leave the history and index alone. Either way,
     * stop loading.
     */
    method CompleteSubmit(snap: Snapshot, outcome: GenerateOutcome, versionStamp: Stamp, replyStamp: Stamp, noticeStamp: Stamp)
      requires Valid() && pending == Some(snap)
      modifies this
      ensures Valid() && !isLoading && pending.None?
      ensures outcome.Generated? ==>
        var response := outcome.response;
        && versions == old(versions) + [CodeVersion(versionStamp.id, response.code, Some(response.blueprint),
                                                    snap.request.prompt, response.explanation, versionStamp.time)]
        && currentVersionIndex == NextIndex(old(currentVersionIndex), snap.versionCount)
        && currentVersionIndex == |versions| - 1
        && PreviewCode(versions, currentVersionIndex) == response.code
        && messages == old(messages) + ReplyMessages(response, replyStamp, noticeStamp)
      ensures outcome.Failed? ==>
        && versions == old(versions) && currentVersionIndex == old(currentVersionIndex)
        && messages == old(messages) + [ChatMessage(noticeStamp.id, System, ErrorText(outcome.message), noticeStamp.time)]
    {
      match outcome {
        case Generated(response) =>
          var version := CodeVersion(versionStamp.id, response.code, Some(response.blueprint),
                                     snap.request.prompt, response.explanation, versionStamp.time);
          NextIndexIsNewLast(versions, currentVersionIndex, snap.versionCount);
          versions := versions + [version];
          currentVersionIndex := NextIndex(currentVersionIndex, snap.versionCount);
          messages := messages + [ChatMessage(replyStamp.id, Assistant, response.explanation, replyStamp.time)];
          if |response.violations| > 0 {
            messages := messages + [ChatMessage(noticeStamp.id, System, SafetyText(response.violations), noticeStamp.time)];
          }
        case Failed(message) =>
          messages := messages + [ChatMessage(noticeStamp.id, System, ErrorText(message), noticeStamp.time)];
      }
      isLoading := false;
      pending := None;
    }

    /**
     * `handleRollback`: move the index to `index` and append a notice naming that
     * version; the history itself is untouched. Allowed while a request is pending.
     */
    method Rollback(index: int, stamp: Stamp)
      requires Valid() && 0 <= index < |versions|
      modifies this
      ensures Valid() && pending == old(pending) && isLoading == old(isLoading)
      ensures currentVersionIndex == index && versions == old(versions)
      ensures PreviewCode(versions, currentVersionIndex) == versions[index].code
      ensures messages == old(messages) + [ChatMessage(stamp.id, System, RollbackText(index, versions[index].prompt), stamp.time)]
    {
      currentVersionIndex := index;
      var version := versions[index];
      messages := messages + [ChatMessage(stamp.id, System, RollbackText(index, version.prompt), stamp.time)];
    }

    /**
     * `handleClearHistory`: empty the messages and the history and reset the index.
     * The loading flag is not touched, so a pending request still completes later.
     */
    method ClearHistory()
      requires Valid()
      modifies this
      ensures Valid() && pending == old(pending) && isLoading == old(isLoading)
      ensures messages == [] && versions == [] && currentVersionIndex == -1
    {
      messages := [];
      versions := [];
      currentVersionIndex := -1;
    }
  }

  /**
   * The chat panel wired to the session: a submit that passes the panel's guard
   * begins a generation with the trimmed prompt; one that does not changes nothing.
   */
  method SubmitFromChat(chat: Chat.ChatPanel, app: App, stamp: Stamp) returns (snap: Option<Snapshot>)
    requires app.Valid()
    modifies chat, app
    ensures app.Valid()
    ensures snap.None? <==> Chat.SendDisabled(old(app.isLoading), old(chat.input))
    ensures snap.None? ==>
      && chat.input == old(chat.input) && app.messages == old(app.messages)
      && app.isLoading == old(app.isLoading) && app.pending == old(app.pending)
    ensures snap.Some? ==>
      && chat.input == "" && app.isLoading && app.pending == snap
      && snap.value.request.prompt == Trim(old(chat.input)) != ""
      && app.messages == old(app.messages) + [ChatMessage(stamp.id, User, Trim(old(chat.input)), stamp.time)]
    ensures app.versions == old(app.versions) && app.currentVersionIndex == old(app.currentVersionIndex)
  {
    var sent := chat.HandleSubmit(app.isLoading);
    if sent.Some? {
      var s := app.BeginSubmit(sent.value, stamp);
      snap := Some(s);
    } else {
      snap := None;
    }
  }

  /** Rolling back and then submitting appends after the physical end, not after the current index. */
  method RollbackThenSubmitScenario(a: CodeVersion, b: CodeVersion, response: GenerateResponse, s: Stamp)
  {
    var app := new App();
    var p := app.BeginSubmit("first", s);
    app.CompleteSubmit(p, Generated(response), s, s, s);
    p := app.BeginSubmit("second", s);
    app.CompleteSubmit(p, Generated(response), s, s, s);
    var second := app.versions[1];
    assert |app.versions| == 2 && app.currentVersionIndex == 1;
    app.Rollback(0, s);
    p := app.BeginSubmit("add a footer", s);
    assert p.request.currentCode == (if app.versions[0].code == "" then None else Some(app.versions[0].code));
    app.CompleteSubmit(p, Generated(response), s, s, s);
    assert |app.versions| == 3 && app.currentVersionIndex == 2 && app.versions[1] == second;
    assert app.versions[2].prompt == "add a footer";
  }

  /** A first generation commits one version; violations add a third message but do not block it. */
  method SuccessScenario(code: string, blueprint: Blueprint, s: Stamp)
  {
    var app := new App();
    var p := app.BeginSubmit("A login page", s);
    app.CompleteSubmit(p, Generated(GenerateResponse(code, blueprint, "Built it", [])), s, s, s);
    assert |app.versions| == 1 && app.currentVersionIndex == 0 && |app.messages| == 2;
    assert app.messages[1].role == Assistant && app.messages[1].content == "Built it";
    app.ClearHistory();
    p := app.BeginSubmit("A login page", s);
    app.CompleteSubmit(p, Generated(GenerateResponse(code, blueprint, "Built it", ["unsafe inline script removed"])), s, s, s);
    assert |app.versions| == 1 && app.currentVersionIndex == 0 && |app.messages| == 3;
    assert app.messages[2].role == System;
  }

  /** A failed generation on an empty history leaves two messages and no version. */
  method FailureScenario(s: Stamp)
  {
    var app := new App();
    var p := app.BeginSubmit("A login page", s);
    app.CompleteSubmit(p, Failed(None), s, s, s);
    assert app.versions == [] && app.currentVersionIndex == -1 && !app.isLoading;
    assert |app.messages| == 2 && app.messages[0].role == User && app.messages[1].role == System;
  }

  /** A clear while a generation is pending: the late response becomes the only version. */
  method ClearWhilePendingScenario(response: GenerateResponse, s: Stamp)
  {
    var app := new App();
    var p := app.BeginSubmit("one", s);
    app.CompleteSubmit(p, Generated(response), s, s, s);
    p := app.BeginSubmit("two", s);
    app.ClearHistory();
    assert app.isLoading;
    app.CompleteSubmit(p, Generated(response), s, s, s);
    assert |app.versions| == 1 && app.currentVersionIndex == 0;
  }
}
