/**
 * The bookkeeping of the IAM user generator app: the registry of deployed
 * stacks (a list of records kept in a JSON file), the user table of the
 * account sheet, and the list of creators read from the environment. The
 * JSON file becomes the registry's field, the AWS CLI call an abstract
 * result, the clock a parameter.
 */
module IamApp {
  import opened Wrappers
  import opened Text
  import opened Env

  // ---------------------------------------------------------------------
  // The stack registry
  // ---------------------------------------------------------------------

  /** One record of the registry file. */
  datatype StackInfo = StackInfo(
    stackName: string,
    groupName: string,
    userCount: int,
    creator: string,
    createdAt: string,
    stackId: string)

  /**
   * What running `aws cloudformation …` gave: the call raised, or the CLI
   * exited with a return code; on exit 0, `StackId` is the id read from its
   * JSON output, None when the output did not parse or had no such key.
   */
  datatype CliResult = Raised | Exited(returnCode: int, stackId: Option<string>)

  const StackPrefix: string := "nxtcloud-iamuser-"

  /** The stack deployed for a group. */
  function StackName(group: string): (name: string)
    ensures |name| == |StackPrefix| + |group|
    ensures name[..|StackPrefix|] == StackPrefix && name[|StackPrefix|..] == group
  {
    StackPrefix + group
  }

  /** Different groups get different stacks. */
  lemma StackNameInjective(g1: string, g2: string)
    requires StackName(g1) == StackName(g2)
    ensures g1 == g2
  {
    assert g1 == StackName(g1)[|StackPrefix|..];
  }

  /** The position of the first record with this stack name, if any. */
  function FirstMatch(stacks: seq<StackInfo>, name: string): (k: Option<nat>)
    ensures k.Some? ==> k.value < |stacks| && stacks[k.value].stackName == name
    ensures k.Some? ==> forall j :: 0 <= j < k.value ==> stacks[j].stackName != name
    ensures k.None? <==> forall j :: 0 <= j < |stacks| ==> stacks[j].stackName != name
    decreases |stacks|
  {
    if |stacks| == 0 then None
    else if stacks[0].stackName == name then Some(0)
    else
      match FirstMatch(stacks[1..], name)
      case None => None
      case Some(k) => Some(k + 1)
  }

  /** The first match is the one position holding a match with none before it. */
  lemma FirstMatchAt(stacks: seq<StackInfo>, name: string, k: nat)
    requires k < |stacks| && stacks[k].stackName == name
    requires forall j :: 0 <= j < k ==> stacks[j].stackName != name
    ensures FirstMatch(stacks, name) == Some(k)
  {
    var m := FirstMatch(stacks, name);
    assert m.Some?;
  }

  /** The records whose stack name differs from `name`, in their order. */
  function Without(stacks: seq<StackInfo>, name: string): (r: seq<StackInfo>)
    ensures |r| <= |stacks|
    decreases |stacks|
  {
    if |stacks| == 0 then []
    else
      var n := |stacks| - 1;
      Without(stacks[..n], name) + (if stacks[n].stackName == name then [] else [stacks[n]])
  }

  /** Exactly the records of other names survive. */
  lemma {:induction false} WithoutMembers(stacks: seq<StackInfo>, name: string)
    ensures forall s :: s in Without(stacks, name) <==> s in stacks && s.stackName != name
    decreases |stacks|
  {
    if |stacks| > 0 {
      var n := |stacks| - 1;
      WithoutMembers(stacks[..n], name);
      assert stacks == stacks[..n] + [stacks[n]];
    }
  }

  /** Removal keeps the order: it works record by record over any split of the list. */
  lemma {:induction false} WithoutConcat(a: seq<StackInfo>, b: seq<StackInfo>, name: string)
    ensures Without(a + b, name) == Without(a, name) + Without(b, name)
    decreases |b|
  {
    if |b| == 0 {
      assert a + b == a;
    } else {
      var n := |b| - 1;
      assert (a + b)[..|a| + n] == a + b[..n];
      assert (a + b)[|a| + n] == b[n];
      WithoutConcat(a, b[..n], name);
    }
  }

  /** A list with no record of that name is left as it is. */
  lemma {:induction false} WithoutNone(stacks: seq<StackInfo>, name: string)
    requires forall j :: 0 <= j < |stacks| ==> stacks[j].stackName != name
    ensures Without(stacks, name) == stacks
    decreases |stacks|
  {
    if |stacks| > 0 {
      var n := |stacks| - 1;
      WithoutNone(stacks[..n], name);
      assert stacks[..n] + [stacks[n]] == stacks;
    }
  }

  /** Removing twice is removing once. */
  lemma WithoutIdempotent(stacks: seq<StackInfo>, name: string)
    ensures Without(Without(stacks, name), name) == Without(stacks, name)
  {
    var r := Without(stacks, name);
    WithoutMembers(stacks, name);
    forall j | 0 <= j < |r|
      ensures r[j].stackName != name
    {
      assert r[j] in r;
    }
    WithoutNone(r, name);
  }

  /** The record `add_stack_info` writes: its stack id is filled in later. */
  function NewStack(name: string, group: string, count: int, creator: string, createdAt: string): StackInfo
  {
    StackInfo(name, group, count, creator, createdAt, "")
  }

  /** The registry after `execute_cloudformation` for this group and CLI result. */
  function Deployed(stacks: seq<StackInfo>, group: string, count: int, creator: string, createdAt: string,
                    result: CliResult): seq<StackInfo>
  {
    var added := stacks + [NewStack(StackName(group), group, count, creator, createdAt)];
    match result
    case Raised => added
    case Exited(rc, id) =>
      if rc != 0 then Without(added, StackName(group))
      else if id.None? then added
      else
        match FirstMatch(added, StackName(group))
        case None => added
        case Some(k) => added[k := added[k].(stackId := id.value)]
  }

  /**
   * A deployment the CLI rejects leaves no record of that stack name, not
   * even one from an earlier deployment, and keeps every other record in
   * its order.
   */
  lemma FailedDeployment(stacks: seq<StackInfo>, group: string, count: int, creator: string, createdAt: string,
                         rc: int, id: Option<string>)
    requires rc != 0
    ensures var after := Deployed(stacks, group, count, creator, createdAt, Exited(rc, id));
      && after == Without(stacks, StackName(group))
      && forall j :: 0 <= j < |after| ==> after[j].stackName != StackName(group)
  {
    var name := StackName(group);
    var added := stacks + [NewStack(name, group, count, creator, createdAt)];
    WithoutConcat(stacks, [NewStack(name, group, count, creator, createdAt)], name);
    assert Without([NewStack(name, group, count, creator, createdAt)], name) == [];
    var after := Without(stacks, name);
    WithoutMembers(stacks, name);
    forall j | 0 <= j < |after|
      ensures after[j].stackName != name
    {
      assert after[j] in after;
    }
  }

  /**
   * A first deployment of a stack name that the CLI accepts keeps the new
   * record at the end and gives it the stack id from the output, when there
   * is one.
   */
  lemma FirstDeployment(stacks: seq<StackInfo>, group: string, count: int, creator: string, createdAt: string,
                        id: Option<string>)
    requires forall j :: 0 <= j < |stacks| ==> stacks[j].stackName != StackName(group)
    ensures Deployed(stacks, group, count, creator, createdAt, Exited(0, id))
      == stacks + [NewStack(StackName(group), group, count, creator, createdAt)
                     .(stackId := if id.Some? then id.value else "")]
  {
    var added := stacks + [NewStack(StackName(group), group, count, creator, createdAt)];
    FirstMatchAt(added, StackName(group), |stacks|);
  }

  /**
   * When the registry already holds a record of that stack name, the id of
   * an accepted deployment lands on the oldest such record, and the new one
   * keeps an empty stack id.
   */
  lemma RedeploymentIdGoesToOldest(stacks: seq<StackInfo>, group: string, count: int, creator: string,
                                   createdAt: string, id: string)
    requires exists j :: 0 <= j < |stacks| && stacks[j].stackName == StackName(group)
    ensures var after := Deployed(stacks, group, count, creator, createdAt, Exited(0, Some(id)));
      && |after| == |stacks| + 1
      && after[|stacks|] == NewStack(StackName(group), group, count, creator, createdAt)
      && FirstMatch(stacks, StackName(group)).Some?
      && after[FirstMatch(stacks, StackName(group)).value].stackId == id
  {
    var added := stacks + [NewStack(StackName(group), group, count, creator, createdAt)];
    var k := FirstMatch(stacks, StackName(group));
    assert k.Some?;
    FirstMatchAt(added, StackName(group), k.value);
  }

  /** The registry file, held in memory. */
  class Registry {
    var stacks: seq<StackInfo>

    /** `load_stack_info` with no file: the empty list. */
    constructor ()
      ensures stacks == []
    {
      stacks := [];
    }

    /** `add_stack_info`: one new record at the end, with an empty stack id. */
    method AddStackInfo(name: string, group: string, count: int, creator: string, createdAt: string)
      returns (s: StackInfo)
      modifies this
      ensures s == NewStack(name, group, count, creator, createdAt) && s.stackId == ""
      ensures stacks == old(stacks) + [s]
    {
      s := StackInfo(name, group, count, creator, createdAt, "");
      stacks := stacks + [s];
    }

    /** `update_stack_id`: the first record of that name gets the id; with none, nothing changes. */
    method UpdateStackId(name: string, id: string)
      modifies this
      ensures |stacks| == |old(stacks)|
      ensures FirstMatch(old(stacks), name).None? ==> stacks == old(stacks)
      ensures FirstMatch(old(stacks), name).Some? ==>
        var k := FirstMatch(old(stacks), name).value;
        stacks == old(stacks)[k := old(stacks)[k].(stackId := id)]
    {
      var i := 0;
      while i < |stacks|
        invariant 0 <= i <= |stacks| && stacks == old(stacks)
        invariant forall j :: 0 <= j < i ==> stacks[j].stackName != name
      {
        if stacks[i].stackName == name {
          stacks := stacks[i := stacks[i].(stackId := id)];
          break;
        }
        i := i + 1;
      }
    }

    /** `remove_stack_info`: every record of that name goes, the others keep their order. */
    method RemoveStackInfo(name: string)
      modifies this
      ensures stacks == Without(old(stacks), name)
    {
      stacks := Without(stacks, name);
    }

    /**
     * `execute_cloudformation`: record the stack, run the CLI, then fill in
     * the stack id on success or drop the stack's records on failure. The
     * returned name is empty when the call raised.
     */
    method ExecuteCloudformation(group: string, count: int, creator: string, createdAt: string, result: CliResult)
      returns (ok: bool, name: string)
      modifies this
      ensures ok <==> result.Exited? && result.returnCode == 0
      ensures name == if result.Raised? then "" else StackName(group)
      ensures stacks == Deployed(old(stacks), group, count, creator, createdAt, result)
    {
      var stackName := StackName(group);
      var _ := AddStackInfo(stackName, group, count, creator, createdAt);
      match result {
        case Raised =>
          return false, "";
        case Exited(rc, id) =>
          if rc == 0 {
            if id.Some? {
              UpdateStackId(stackName, id.value);
            }
          } else {
            RemoveStackInfo(stackName);
          }
          return rc == 0, stackName;
      }
    }

    /** `delete_cloudformation_stack`: the stack's records go only when the CLI succeeds. */
    method DeleteCloudformationStack(name: string, result: CliResult) returns (ok: bool)
      modifies this
      ensures ok <==> result.Exited? && result.returnCode == 0
      ensures stacks == if ok then Without(old(stacks), name) else old(stacks)
    {
      ok := result.Exited? && result.returnCode == 0;
      if ok {
        RemoveStackInfo(name);
      }
    }
  }

  // ---------------------------------------------------------------------
  // The user table of the account sheet
  // ---------------------------------------------------------------------

  const HeaderLines: seq<string> := ["| Username | IAM User |", "|----------|----------|"]

  /** `f"{group_name}-{i:02d}"`, the IAM user name of number i. */
  function UserName(group: string, i: nat): (u: string)
    ensures u == group + "-" + ZeroPad(i, 2)
  {
    group + "-" + ZeroPad(i, 2)
  }

  /** The table line of user i. */
  function UserLine(group: string, i: nat): string
  {
    "|          | " + UserName(group, i) + " |"
  }

  /** `range(user_count + 1)`: users 00 to user_count, none when the count is negative. */
  function UserTotal(userCount: int): (n: nat)
    ensures userCount >= 0 ==> n == userCount + 1
    ensures userCount < 0 ==> n == 0
  {
    if userCount < 0 then 0 else userCount + 1
  }

  /** The lines of the table: the header, then one line per user in increasing order. */
  function TableLines(group: string, userCount: int): (lines: seq<string>)
    ensures |lines| == 2 + UserTotal(userCount)
    ensures lines[..2] == HeaderLines
    ensures forall i :: 0 <= i < UserTotal(userCount) ==> lines[2 + i] == UserLine(group, i)
  {
    HeaderLines + seq(UserTotal(userCount), i requires 0 <= i => UserLine(group, i))
  }

  /** The user table of `generate_markdown`, built line by line. */
  method UserTable(group: string, userCount: int) returns (table: string)
    ensures table == Terminated(TableLines(group, userCount))
  {
    table := "| Username | IAM User |\n|----------|----------|\n";
    HeaderText();
    var n := UserTotal(userCount);
    ghost var lines := TableLines(group, userCount);
    for i := 0 to n
      invariant table == Terminated(lines[..2 + i])
    {
      var iamUser := group + "-" + ZeroPad(i, 2);
      TableStep(lines, i, table);
      table := table + "|          | " + iamUser + " |\n";
    }
    assert lines[..2 + n] == lines;
  }

  lemma HeaderText()
    ensures Terminated(HeaderLines) == "| Username | IAM User |\n|----------|----------|\n"
  {
    assert HeaderLines[1..][1..] == [];
  }

  /** One more line of the table. */
  lemma TableStep(lines: seq<string>, i: nat, table: string)
    requires 2 + i < |lines| && table == Terminated(lines[..2 + i])
    ensures Terminated(lines[..2 + i + 1]) == table + lines[2 + i] + "\n"
  {
    assert lines[..2 + i + 1] == lines[..2 + i] + [lines[2 + i]];
    TerminatedConcat(lines[..2 + i], [lines[2 + i]]);
    assert [lines[2 + i]][1..] == [];
  }

  /**
   * Read back line by line, the table is the two header lines and then
   * exactly one line per user, user i on line 2 + i, followed by the empty
   * piece after the last newline.
   */
  lemma TableSplits(group: string, userCount: int)
    requires '\n' !in group
    ensures Split(Terminated(TableLines(group, userCount)), '\n') == TableLines(group, userCount) + [""]
    ensures |Split(Terminated(TableLines(group, userCount)), '\n')| == 3 + UserTotal(userCount)
  {
    var lines := TableLines(group, userCount);
    forall i | 0 <= i < |lines|
      ensures '\n' !in lines[i]
    {
      if i >= 2 {
        var p := ZeroPad(i - 2, 2);
        assert lines[i] == "|          | " + group + "-" + p + " |";
        assert '\n' !in p;
      }
    }
    SplitTerminated(lines);
  }

  /** No two users of a table share a name. */
  lemma UserNamesDistinct(group: string, i: nat, j: nat)
    requires i != j
    ensures UserName(group, i) != UserName(group, j)
  {
    var pre := group + "-";
    if UserName(group, i) == UserName(group, j) {
      assert ZeroPad(i, 2) == UserName(group, i)[|pre|..];
      assert ZeroPad(j, 2) == UserName(group, j)[|pre|..];
      ZeroPadInjective(i, j, 2);
    }
  }

  // ---------------------------------------------------------------------
  // Creators
  // ---------------------------------------------------------------------

  const DefaultCreators: string := "이정훈,김유림,김도겸,이성용"

  /** Each piece with its surrounding whitespace stripped. */
  function StripAll(parts: seq<string>): (r: seq<string>)
    ensures |r| == |parts|
    ensures forall i :: 0 <= i < |parts| ==> r[i] == Strip(parts[i])
  {
    seq(|parts|, i requires 0 <= i < |parts| => Strip(parts[i]))
  }

  /** `CREATORS`: the comma-separated names of the environment variable, or of its default. */
  function Creators(env: Environment): seq<string>
  {
    StripAll(Split(Getenv(env, "CREATORS", DefaultCreators), ','))
  }

  /**
   * There is one creator more than there are commas, so `CREATORS[0]`
   * always exists, and the i-th creator is the i-th comma-free piece
   * stripped.
   */
  lemma CreatorsShape(env: Environment)
    ensures |Creators(env)| == CountChar(Getenv(env, "CREATORS", DefaultCreators), ',') + 1
    ensures |Creators(env)| >= 1
    ensures forall i :: 0 <= i < |Creators(env)| ==>
      Creators(env)[i] == Strip(Split(Getenv(env, "CREATORS", DefaultCreators), ',')[i])
  {
    SplitCount(Getenv(env, "CREATORS", DefaultCreators), ',');
  }

  /** Names written without commas or surrounding whitespace, joined by commas, are read back as they were. */
  lemma CreatorsRoundTrip(env: Environment, names: seq<string>)
    requires |names| >= 1
    requires forall i :: 0 <= i < |names| ==> ',' !in names[i]
    requires forall i :: 0 <= i < |names| ==>
      |names[i]| > 0 ==> !IsSpace(names[i][0]) && !IsSpace(names[i][|names[i]| - 1])
    requires Getenv(env, "CREATORS", DefaultCreators) == Join(names, ",")
    ensures Creators(env) == names
  {
    SplitJoin(names, ',');
    forall i | 0 <= i < |names|
      ensures Strip(names[i]) == names[i]
    {
      StripTrimmed(names[i]);
    }
  }

  /** Without the variable, the four default creators. */
  lemma DefaultCreatorList(env: Environment)
    requires "CREATORS" !in env
    ensures Creators(env) == ["이정훈", "김유림", "김도겸", "이성용"]
  {
    var names := ["이정훈", "김유림", "김도겸", "이성용"];
    assert Join(names, ",") == DefaultCreators;
    CreatorsRoundTrip(env, names);
  }
}
