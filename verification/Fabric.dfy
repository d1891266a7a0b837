/** The agent fabric document of `src/fabric_context/model.rs` and the channel paths that name its nodes. */
module Fabric {
  import opened Order

  /** The reminder a document may end with. */
  const COORDINATION_GUIDE_REMINDER :=
    "Read Mosaico's skill resource `~/.agents/skills/mosaico/references/coordination-guide.md` before you continue; "
    + "it defines the rules of engagement."

  datatype SelfRow = SelfRow(
    name: string, host: string, workspace: string, branch: string,
    headless: bool, unhosted: bool, title: string, hint: string)

  datatype AgentRow = AgentRow(reference: string, about: string)
  datatype HostRow = HostRow(name: string, roots: seq<string>, agents: seq<AgentRow>)

  datatype SessionState = Working | Idle | Suspended | Offline {
    function AsStr(): string {
      match this
      case Working => "working"
      case Idle => "idle"
      case Suspended => "suspended"
      case Offline => "offline"
    }
  }

  datatype MemberKind = Agent | Human

  datatype MemberRow = MemberRow(
    kind: MemberKind, name: string, host: string, workspace: string, branch: string,
    state: Option<SessionState>, status: string, since: string)

  datatype NativeFailureRow = NativeFailureRow(outcome: string, message: string, since: string)

  datatype PresenceRow = PresenceRow(
    name: string, host: string, workspace: string, branch: string,
    state: SessionState, status: string, since: string, nativeFailure: Option<NativeFailureRow>)

  datatype MessageRow = MessageRow(
    id: string, channelRef: string, from: string, recipients: seq<string>, createdAt: nat,
    body: string, attachmentDir: string, mention: bool, needsReplyNudge: bool)

  datatype ChannelBlock = ChannelBlock(
    path: string, about: string, agentCount: Option<nat>, lastActive: Option<string>,
    members: seq<MemberRow>, presence: seq<PresenceRow>, departures: seq<string>,
    children: seq<ChannelBlock>, messages: seq<MessageRow>, omitted: nat)
  {
    predicate IsCompact() {
      members == [] && presence == [] && departures == [] && children == [] && messages == [] && omitted == 0
    }
  }

  datatype WorkspaceView = WorkspaceView(root: Option<ChannelBlock>, channels: seq<ChannelBlock>)

  datatype ImportantRow = ImportantRow(channelRef: string, messageId: string)
  datatype ReactionRow = ReactionRow(reactors: seq<string>, emoji: string, targetSnippet: string, age: string)

  /** `notices` lists the workspace of each "no new activity" notice. */
  datatype FabricView = FabricView(
    now: nat, selfRow: Option<SelfRow>, hosts: Option<seq<HostRow>>, workspaces: Option<seq<WorkspaceView>>,
    important: seq<ImportantRow>, reactions: seq<ReactionRow>, reactionsOmitted: nat,
    warnings: seq<string>, notices: seq<string>, coordinationGuideReminder: bool)

  // ------------------------------------------------------------------ channel paths

  function TrimStart(s: string, c: char): (r: string)
    ensures r == "" || r[0] != c
  {
    if s != "" && s[0] == c then TrimStart(s[1..], c) else s
  }

  /** `trim_start_matches`: exactly the leading run of `c` is gone. */
  lemma {:induction false} TrimStartDrops(s: string, c: char)
    ensures var r := TrimStart(s, c);
            |r| <= |s| && r == s[|s| - |r|..] && forall i | 0 <= i < |s| - |r| :: s[i] == c
  {
    if s != "" && s[0] == c { TrimStartDrops(s[1..], c); }
  }

  /** `format_channel_ref` with no descendants. */
  function RootRef(workspace: string): string { "#" + TrimStart(workspace, '#') }

  /** The part before the last '/', as in `rsplit_once('/')`. */
  function ParentOf(path: string): (p: Option<string>)
    ensures p.Some? ==> |p.value| < |path| && path[|p.value|] == '/' && p.value == path[..|p.value|]
  {
    if path == "" then None
    else if path[|path| - 1] == '/' then Some(path[..|path| - 1])
    else ParentOf(path[..|path| - 1])
  }

  /** The split is at the last '/', and there is none only where there is no '/'. */
  lemma {:induction false} ParentIsBeforeLast(path: string)
    ensures match ParentOf(path)
            case None => '/' !in path
            case Some(p) => p + "/" <= path && '/' !in path[|p| + 1..]
  {
    if path != "" && path[|path| - 1] != '/' {
      var rest := path[..|path| - 1];
      ParentIsBeforeLast(rest);
      assert path == rest + [path[|path| - 1]];
      if ParentOf(rest).Some? {
        var n := |ParentOf(rest).value| + 1;
        assert path[n..] == rest[n..] + [path[|path| - 1]];
      }
    }
  }

  /** How many '/' a path has. */
  function Depth(path: string): nat {
    if path == "" then 0 else Depth(path[..|path| - 1]) + (if path[|path| - 1] == '/' then 1 else 0)
  }

  lemma {:induction false} ParentDepth(path: string)
    requires ParentOf(path).Some?
    ensures Depth(path) == Depth(ParentOf(path).value) + 1
  {
    if path[|path| - 1] != '/' { ParentDepth(path[..|path| - 1]); }
  }
}
