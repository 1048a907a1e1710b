/** The memory package's in-memory store: one versioned profile per scope and the completion markers
    that make a graded completion's refresh idempotent. Every method is atomic. */
module ProfileStore {
  import Keys
  import opened Options
  import opened Text

  /** `lineage` lists the writes this profile's contents were computed from, oldest first; it stands for
      the summary, skills, notes and provenance of the original. */
  datatype Profile = Profile(version: int, lineage: seq<nat>)

  datatype Completion = Completion(
    sessionID: string, problemID: string, submissionID: string, threadID: string,
    sourceEventID: string, refreshID: string, profileVersion: int)

  datatype StoreError = ProfileNotFound | StaleProfile | CompletionAlreadyProcessed

  datatype Result<+T> = Ok(value: T) | Err(error: StoreError)

  type Profiles = map<string, Profile>
  type Completions = map<string, Completion>

  function CompletionKey(scope: string, session: string, problem: string, submission: string, thread: string): string {
    Keys.Join([scope, session, problem, submission, thread])
  }

  function KeyOf(scope: string, c: Completion): string {
    CompletionKey(scope, c.sessionID, c.problemID, c.submissionID, c.threadID)
  }

  function Stored(profiles: Profiles, scope: string): Option<Profile> {
    if scope in profiles then Some(profiles[scope]) else None
  }

  predicate Processed(completions: Completions, key: string) {
    key in completions
  }

  function Upserted(profiles: Profiles, scope: string, profile: Profile): Profiles {
    var version := if scope in profiles then profiles[scope].version + 1
                   else if profile.version == 0 then 1 else profile.version;
    profiles[scope := profile.(version := version)]
  }

  function Replaced(profiles: Profiles, scope: string, profile: Profile, expected: int): Result<Profiles> {
    if scope !in profiles then
      if expected != 0 then Err(ProfileNotFound) else Ok(profiles[scope := profile.(version := 1)])
    else if profiles[scope].version != expected then Err(StaleProfile)
    else Ok(profiles[scope := profile.(version := expected + 1)])
  }

  function ReplacedAndMarked(
    profiles: Profiles, completions: Completions, scope: string, profile: Profile, expected: int, c: Completion)
    : Result<(Profiles, Completions)>
  {
    if Processed(completions, KeyOf(scope, c)) then Err(CompletionAlreadyProcessed) else
    match Replaced(profiles, scope, profile, expected)
    case Err(e) => Err(e)
    case Ok(next) => Ok((next, completions[KeyOf(scope, c) := c]))
  }

  class InMemoryStore {
    var profiles: Profiles
    var completions: Completions

    constructor ()
      ensures profiles == map[] && completions == map[]
    {
      profiles, completions := map[], map[];
    }

    method GetProfile(scope: string) returns (r: Result<Profile>)
      ensures match Stored(profiles, scope) case None => r == Err(ProfileNotFound) case Some(p) => r == Ok(p)
    {
      return if scope in profiles then Ok(profiles[scope]) else Err(ProfileNotFound);
    }

    method UpsertProfile(scope: string, profile: Profile)
      modifies this`profiles
      ensures profiles == Upserted(old(profiles), scope, profile)
    {
      var next := profile;
      if scope in profiles {
        next := next.(version := profiles[scope].version + 1);
      } else if next.version == 0 {
        next := next.(version := 1);
      }
      profiles := profiles[scope := next];
    }

    method ReplaceProfileIfVersion(scope: string, profile: Profile, expected: int) returns (r: Result<()>)
      modifies this`profiles
      ensures match Replaced(old(profiles), scope, profile, expected)
        case Err(e) => r == Err(e) && profiles == old(profiles)
        case Ok(next) => r == Ok(()) && profiles == next
    {
      if scope !in profiles {
        if expected != 0 {
          return Err(ProfileNotFound);
        }
        profiles := profiles[scope := profile.(version := 1)];
        return Ok(());
      }
      if profiles[scope].version != expected {
        return Err(StaleProfile);
      }
      profiles := profiles[scope := profile.(version := expected + 1)];
      return Ok(());
    }

    method ReplaceProfileAndMarkCompletionIfVersion(scope: string, profile: Profile, expected: int, c: Completion)
      returns (r: Result<()>)
      modifies this`profiles, this`completions
      ensures match ReplacedAndMarked(old(profiles), old(completions), scope, profile, expected, c)
        case Err(e) => r == Err(e) && profiles == old(profiles) && completions == old(completions)
        case Ok(next) => r == Ok(()) && profiles == next.0 && completions == next.1
    {
      var key := KeyOf(scope, c);
      if key in completions {
        return Err(CompletionAlreadyProcessed);
      }
      var next := profile;
      if scope !in profiles {
        if expected != 0 {
          return Err(ProfileNotFound);
        }
        next := next.(version := 1);
      } else {
        if profiles[scope].version != expected {
          return Err(StaleProfile);
        }
        next := next.(version := expected + 1);
      }
      profiles := profiles[scope := next];
      completions := completions[key := c];
      return Ok(());
    }

    method IsProcessed(scope: string, session: string, problem: string, submission: string, thread: string)
      returns (processed: bool)
      ensures processed <==> Processed(completions, CompletionKey(scope, session, problem, submission, thread))
    {
      return CompletionKey(scope, session, problem, submission, thread) in completions;
    }
  }

  /** The service's stamping of a completion: identifiers trimmed, an interview reduced to its thread,
      the version the commit will store; None when the identity is incomplete. */
  function Stamped(c: Completion, expected: int): Option<Completion> {
    var t := c.(sessionID := Trim(c.sessionID), problemID := Trim(c.problemID), submissionID := Trim(c.submissionID),
                threadID := Trim(c.threadID), sourceEventID := Trim(c.sourceEventID), refreshID := Trim(c.refreshID));
    if t.sessionID == "" || t.sourceEventID == "" || t.refreshID == "" then None
    else if t.threadID != "" then Some(t.(problemID := "", submissionID := "", profileVersion := expected + 1))
    else if t.submissionID == "" || t.problemID == "" then None
    else Some(t.(profileVersion := expected + 1))
  }

  /** A completion is stamped exactly if it names its session and where it comes from, and an interview thread
      or both a submission and a problem; a thread leaves no room for those. */
  lemma StampedIs(c: Completion, expected: int)
    ensures Stamped(c, expected) == None <==>
      || Blank(c.sessionID) || Blank(c.sourceEventID) || Blank(c.refreshID)
      || (Blank(c.threadID) && (Blank(c.submissionID) || Blank(c.problemID)))
    ensures Stamped(c, expected) != None ==>
      var t := Stamped(c, expected).value;
      && t.sessionID == Trim(c.sessionID) && t.threadID == Trim(c.threadID)
      && t.submissionID == (if Blank(c.threadID) then Trim(c.submissionID) else "")
      && t.problemID == (if Blank(c.threadID) then Trim(c.problemID) else "")
      && t.sourceEventID == Trim(c.sourceEventID) && t.refreshID == Trim(c.refreshID)
      && t.profileVersion == expected + 1
  {
    BlankTrims(c.sessionID);
    BlankTrims(c.sourceEventID);
    BlankTrims(c.refreshID);
    BlankTrims(c.threadID);
    BlankTrims(c.submissionID);
    BlankTrims(c.problemID);
  }
}
