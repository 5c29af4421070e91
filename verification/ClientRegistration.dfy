/**
 Registering this server in the JSON configuration file of another program, and removing
 it again, without touching anything else in that file.
 */
module ClientRegistration {
  import opened Wrappers

  datatype Json =
    | Null
    | Boolean(flag: bool)
    | Number(digits: string)
    | String(text: string)
    | Array(items: seq<Json>)
    | Object(members: map<string, Json>)

  const SERVERS := "mcpServers"
  const NAME := "worklogger"
  const COMMAND := "command"
  const ARGUMENTS := "args"
  const SERVE := "serve"

  /**
   What the operating system says about paths: which are absolute, which are files, which
   are equal, and which are versioned executables of this program beside the given one.
   */
  datatype Host = Host(
    isAbsolute: string -> bool,
    isFile: string -> bool,
    samePath: (string, string) -> bool,
    isVersioned: (string, string) -> bool)
  {
    ghost predicate Valid() { forall path: string :: samePath(path, path) }
  }

  datatype RegistrationState =
    | Available
    | Registered
    | BrokenRegistration
    | OwnedOutdatedRegistration
    | ConflictingRegistration

  datatype RegistrationError = InvalidServerExecutable | InvalidConfiguration | ConcurrentModification | StorageFailed

  // ----- The document -----

  /** An object at the root, and an object of servers if there are any. */
  predicate HasShape(document: Json) {
    document.Object? && (SERVERS in document.members ==> document.members[SERVERS].Object?)
  }

  function Servers(document: Json): map<string, Json>
    requires HasShape(document)
  {
    if SERVERS in document.members then document.members[SERVERS].members else map[]
  }

  function WithServers(document: Json, servers: map<string, Json>): Json
    requires HasShape(document)
  {
    Object(document.members[SERVERS := Object(servers)])
  }

  function ServerEntry(server: string): Json {
    Object(map[COMMAND := String(server), ARGUMENTS := Array([String(SERVE)])])
  }

  function Member(value: Json, name: string): Option<Json> {
    if value.Object? && name in value.members then Some(value.members[name]) else None
  }

  function StateForCommand(host: Host, command: string, server: string): RegistrationState {
    if host.samePath(command, server) then if host.isFile(server) then Registered else BrokenRegistration
    else if host.isVersioned(command, server) then OwnedOutdatedRegistration
    else ConflictingRegistration
  }

  function StateForEntry(host: Host, entry: Json, server: string): RegistrationState {
    if Member(entry, ARGUMENTS) != Some(Array([String(SERVE)])) then ConflictingRegistration
    else
      match Member(entry, COMMAND)
      case Some(String(command)) => StateForCommand(host, command, server)
      case _ => ConflictingRegistration
  }

  function StateOf(host: Host, document: Json, server: string): RegistrationState
    requires HasShape(document)
  {
    if NAME in Servers(document) then StateForEntry(host, Servers(document)[NAME], server) else Available
  }

  predicate IsOwned(state: RegistrationState) {
    state.Registered? || state.BrokenRegistration? || state.OwnedOutdatedRegistration?
  }

  // ----- Whose entry it is -----

  /** The entry under "worklogger" of "mcpServers", if there is one. */
  ghost predicate HasEntry(document: Json, entry: Json) {
    && document.Object? && "mcpServers" in document.members
    && document.members["mcpServers"].Object? && "worklogger" in document.members["mcpServers"].members
    && document.members["mcpServers"].members["worklogger"] == entry
  }

  /** The entry runs that command, with the one argument "serve". */
  ghost predicate Runs(entry: Json, command: string) {
    && entry.Object?
    && "args" in entry.members && entry.members["args"] == Array([String("serve")])
    && "command" in entry.members && entry.members["command"] == String(command)
  }

  /** An entry of our own runs this server, or a versioned executable beside it. */
  ghost predicate IsOurs(host: Host, entry: Json, server: string) {
    exists command :: Runs(entry, command) && (host.samePath(command, server) || host.isVersioned(command, server))
  }

  /** What each state says about the entry. */
  lemma StatesAre(host: Host, document: Json, server: string)
    requires HasShape(document)
    ensures var state := StateOf(host, document, server);
            && (state == Available <==> forall entry :: !HasEntry(document, entry))
            && (state == Registered <==>
                exists entry, command :: HasEntry(document, entry) && Runs(entry, command)
                                      && host.samePath(command, server) && host.isFile(server))
            && (state == BrokenRegistration <==>
                exists entry, command :: HasEntry(document, entry) && Runs(entry, command)
                                      && host.samePath(command, server) && !host.isFile(server))
            && (state == OwnedOutdatedRegistration <==>
                exists entry, command :: HasEntry(document, entry) && Runs(entry, command)
                                      && !host.samePath(command, server) && host.isVersioned(command, server))
  {
    if NAME in Servers(document) {
      var entry := Servers(document)[NAME];
      assert HasEntry(document, entry);
      match Member(entry, COMMAND)
      case Some(String(command)) =>
        assert Member(entry, ARGUMENTS) == Some(Array([String(SERVE)])) ==> Runs(entry, command);
      case _ =>
    }
  }

  lemma OwnedIff(host: Host, document: Json, server: string)
    requires HasShape(document)
    ensures IsOwned(StateOf(host, document, server)) <==>
              exists entry :: HasEntry(document, entry) && IsOurs(host, entry, server)
  {
    StatesAre(host, document, server);
    if NAME in Servers(document) { assert HasEntry(document, Servers(document)[NAME]); }
  }

  /** Which documents can be edited, and how a file is read. */
  lemma ReadsAre(content: Content)
    ensures content == Missing ==> Read(content) == Success(Object(map[]))
    ensures content == Unusable ==> Read(content) == Failure(InvalidConfiguration)
    ensures content.Holds? ==>
              if content.document.Object?
                 && ("mcpServers" in content.document.members ==> content.document.members["mcpServers"].Object?)
              then Read(content) == Success(content.document)
              else Read(content) == Failure(InvalidConfiguration)
  {}

  // ----- The two edits -----

  function WithRegistration(document: Json, server: string): (r: Json)
    requires HasShape(document)
    ensures HasShape(r)
  {
    WithServers(document, Servers(document)[NAME := ServerEntry(server)])
  }

  /** Only an entry of our own is removed. */
  function WithoutRegistration(host: Host, document: Json, server: string): (r: Json)
    requires HasShape(document)
    ensures HasShape(r)
  {
    if IsOwned(StateOf(host, document, server)) then WithServers(document, Servers(document) - {NAME}) else document
  }

  /** Two documents agree on everything but our entry, and on whether there is a place for servers. */
  ghost predicate SameElsewhere(a: Json, b: Json) {
    && HasShape(a) && HasShape(b)
    && a.members - {SERVERS} == b.members - {SERVERS}
    && Servers(a) - {NAME} == Servers(b) - {NAME}
  }

  lemma RegistrationChangesNothingElse(document: Json, server: string)
    requires HasShape(document)
    ensures SameElsewhere(document, WithRegistration(document, server))
  {}

  lemma RemovalChangesNothingElse(host: Host, document: Json, server: string)
    requires HasShape(document)
    ensures SameElsewhere(document, WithoutRegistration(host, document, server))
  {}

  datatype Edit = Register(server: string) | Unregister(server: string)

  function Edited(host: Host, document: Json, edits: seq<Edit>): (r: Json)
    requires HasShape(document)
    ensures HasShape(r)
  {
    if edits == [] then document
    else
      var before := Edited(host, document, edits[..|edits| - 1]);
      match edits[|edits| - 1]
      case Register(server) => WithRegistration(before, server)
      case Unregister(server) => WithoutRegistration(host, before, server)
  }

  /** Whatever sequence of edits is made, every other root member and every other server stays as it was. */
  lemma {:induction false} EditsChangeNothingElse(host: Host, document: Json, edits: seq<Edit>)
    requires HasShape(document)
    ensures SameElsewhere(document, Edited(host, document, edits))
  {
    if edits != [] {
      var before := Edited(host, document, edits[..|edits| - 1]);
      EditsChangeNothingElse(host, document, edits[..|edits| - 1]);
      match edits[|edits| - 1]
      case Register(server) => RegistrationChangesNothingElse(before, server);
      case Unregister(server) => RemovalChangesNothingElse(host, before, server);
    }
  }

  /** What is written is an entry that runs the server, and nothing more. */
  lemma EntryIsWritten(document: Json, server: string)
    requires HasShape(document)
    ensures HasEntry(WithRegistration(document, server),
                     Object(map["command" := String(server), "args" := Array([String("serve")])]))
  {}

  /** What was just written is recognised as our own: registered, or broken while the file is missing. */
  lemma RegisteredAfterwards(host: Host, document: Json, server: string)
    requires HasShape(document) && host.Valid()
    ensures StateOf(host, WithRegistration(document, server), server)
              == if host.isFile(server) then Registered else BrokenRegistration
  {}

  /** Removal leaves no entry of our own, and leaves a foreign entry alone. */
  lemma AvailableAfterwards(host: Host, document: Json, server: string)
    requires HasShape(document)
    ensures var after := WithoutRegistration(host, document, server);
            if IsOwned(StateOf(host, document, server)) then StateOf(host, after, server) == Available
            else after == document
  {}

  /**
   Registering and then removing gives the document back, up to an empty object of
   servers, exactly if it held no entry under our name. An entry that was there, whoever
   made it, has been overwritten and is gone.
   */
  lemma RoundTripIff(host: Host, document: Json, server: string)
    requires HasShape(document) && host.Valid()
    ensures WithoutRegistration(host, WithRegistration(document, server), server)
                  == WithServers(document, Servers(document)) <==>
              NAME !in Servers(document)
    ensures SERVERS in document.members ==> WithServers(document, Servers(document)) == document
  {
    RegisteredAfterwards(host, document, server);
    var registered := WithRegistration(document, server);
    var after := WithoutRegistration(host, registered, server);
    assert Servers(after) == Servers(document) - {NAME};
    assert after.members == document.members[SERVERS := Object(Servers(document) - {NAME})];
    if NAME in Servers(document) {
      assert Servers(after) != Servers(document);
    } else {
      assert Servers(document) - {NAME} == Servers(document);
    }
    if SERVERS in document.members {
      assert document.members[SERVERS := Object(Servers(document))] == document.members;
    }
  }

  // ----- The file -----

  /** What a read finds: no file, something that is not a usable document, or a document. */
  datatype Content = Missing | Unusable | Holds(document: Json)

  function Read(content: Content): Result<Json, RegistrationError> {
    match content
    case Missing => Success(Object(map[]))
    case Unusable => Failure(InvalidConfiguration)
    case Holds(document) => if HasShape(document) then Success(document) else Failure(InvalidConfiguration)
  }

  /** What another program writes to the file before our next read of it, if anything. */
  type Interference = Option<Content>

  function Disturbed(content: Content, interference: Interference): Content {
    if interference.Some? then interference.value else content
  }

  class ConfigurationFile {
    const host: Host
    const fits: Json -> bool
    var content: Content

    constructor (host: Host, fits: Json -> bool, content: Content)
      ensures this.host == host && this.fits == fits && this.content == content
    {
      this.host, this.fits, this.content := host, fits, content;
    }

    /** Writes a document unless the file no longer says what the document was made from. */
    method WriteJson(original: Json, document: Json, fault: bool) returns (result: Outcome<RegistrationError>)
      modifies this
      ensures result.Pass? <==> Read(old(content)) == Success(original) && fits(document) && !fault
      ensures content == if result.Pass? then Holds(document) else old(content)
      ensures Read(old(content)).Success? && Read(old(content)).value != original ==>
                result == Fail(ConcurrentModification)
    {
      var current := Read(content);
      if current.Failure? { return Fail(current.error); }
      if current.value != original { return Fail(ConcurrentModification); }
      if !fits(document) { return Fail(InvalidConfiguration); }
      if fault { return Fail(StorageFailed); }
      content := Holds(document);
      return Pass;
    }

    method StateNow(server: string) returns (state: Result<RegistrationState, RegistrationError>)
      ensures state == match Read(content)
                       case Success(document) => Success(StateOf(host, document, server))
                       case Failure(error) => Failure(error)
    {
      var document := Read(content);
      if document.Failure? { return Failure(document.error); }
      state := Success(StateOf(host, document.value, server));
    }

    /**
     Registers this server, while another program may change the file between the read and
     the check before the write. What that program wrote is then left alone.
     */
    method RegisterServer(server: string, meanwhile: Interference,
                          fault: bool) returns (result: Outcome<RegistrationError>)
      modifies this
      ensures result.Pass? ==>
                && Read(old(content)).Success?
                && Read(Disturbed(old(content), meanwhile)) == Read(old(content))
                && content == Holds(WithRegistration(Read(old(content)).value, server))
                && HasEntry(content.document,
                            Object(map["command" := String(server), "args" := Array([String("serve")])]))
                && SameElsewhere(Read(old(content)).value, content.document)
                && (host.Valid() ==> StateOf(host, content.document, server) == Registered)
      ensures result.Fail? ==> content == old(content) || content == Disturbed(old(content), meanwhile)
      ensures result.Pass? <==>
                && host.isAbsolute(server) && host.isFile(server)
                && Read(old(content)).Success?
                && Read(Disturbed(old(content), meanwhile)) == Read(old(content))
                && fits(WithRegistration(Read(old(content)).value, server)) && !fault
    {
      if !host.isAbsolute(server) || !host.isFile(server) { return Fail(InvalidServerExecutable); }
      var original := Read(content);
      if original.Failure? { return Fail(original.error); }
      var document := WithRegistration(original.value, server);
      content := Disturbed(content, meanwhile);
      result := WriteJson(original.value, document, fault);
      EntryIsWritten(original.value, server);
      RegistrationChangesNothingElse(original.value, server);
      if host.Valid() { RegisteredAfterwards(host, original.value, server); }
    }

    /**
     Removes this server's entry if it is our own. The state is read first, then the
     document, then the document again before the write; the file may change in between.
     */
    method UnregisterServer(server: string, afterState: Interference, meanwhile: Interference, fault: bool)
      returns (result: Outcome<RegistrationError>)
      modifies this
      ensures content == old(content)
              || content == Disturbed(old(content), afterState)
              || content == Disturbed(Disturbed(old(content), afterState), meanwhile)
              || (result.Pass?
                  && Removed(host, Disturbed(old(content), afterState),
                             Disturbed(Disturbed(old(content), afterState), meanwhile), content, server))
      ensures Read(old(content)).Success?
              && (forall entry :: HasEntry(Read(old(content)).value, entry) ==> !IsOurs(host, entry, server)) ==>
                result.Pass? && content == old(content)
      ensures afterState.None? && meanwhile.None? && result.Pass? ==>
                && Read(old(content)).Success?
                && (if IsOwned(StateOf(host, Read(old(content)).value, server))
                    then content == Holds(WithoutRegistration(host, Read(old(content)).value, server))
                    else content == old(content))
      ensures afterState.None? && meanwhile.None? ==>
                (result.Pass? <==>
                 Read(old(content)).Success?
                 && (IsOwned(StateOf(host, Read(old(content)).value, server)) ==>
                       fits(WithoutRegistration(host, Read(old(content)).value, server)) && !fault))
    {
      if Read(content).Success? { OwnedIff(host, Read(content).value, server); }
      var state := StateNow(server);
      if state.Failure? { return Fail(state.error); }
      if !IsOwned(state.value) { return Pass; }
      content := Disturbed(content, afterState);
      var original := Read(content);
      if original.Failure? { return Fail(original.error); }
      if !IsOwned(StateOf(host, original.value, server)) { return Pass; }
      var document := WithServers(original.value, Servers(original.value) - {NAME});
      OwnedIff(host, original.value, server);
      RemovalChangesNothingElse(host, original.value, server);
      content := Disturbed(content, meanwhile);
      result := WriteJson(original.value, document, fault);
    }
  }

  /** The write happened: the document was the same at both reads, and held an entry of our own. */
  ghost predicate Removed(host: Host, first: Content, second: Content, after: Content, server: string) {
    && Read(first).Success?
    && Read(second) == Read(first)
    && (exists entry :: HasEntry(Read(first).value, entry) && IsOurs(host, entry, server))
    && after == Holds(WithoutRegistration(host, Read(first).value, server))
    && (forall entry :: !HasEntry(after.document, entry))
    && SameElsewhere(Read(first).value, after.document)
  }
}
