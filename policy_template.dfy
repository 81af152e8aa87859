/**
 * The policy part of the CloudFormation template generator: the five
 * managed-policy ARNs read from the environment, the indented, quoted,
 * comma-separated lines the template embeds for them, and the check of
 * the required environment variables.
 */
module PolicyTemplate {
  import opened Text
  import opened Env

  const AccountVar: string := "AWS_ACCOUNT_ID"
  const DefaultAccount: string := "YOUR_ACCOUNT_ID"

  /** The variables that override each ARN, in the order of the list. */
  const PolicyVars: seq<string> := [
    "POLICY_ARN_ALLOW_NON_OVERKILL", "POLICY_ARN_IAM_BASIC_ACCESS", "POLICY_ARN_SAFE_POWER_USER",
    "POLICY_ARN_CONTROL_OWN_RESOURCES", "POLICY_ARN_RESTRICT_REGION_VIRGINIA"]

  /** The policy names of the default ARNs, in the same order. */
  const PolicyNames: seq<string> := [
    "AllowNonOverkill", "IAMBasicAccess", "SafePowerUser", "ControlOnlyOwnResources", "RestrictRegionVirginia"]

  const ArnPrefix: string := "arn:aws:iam::"
  const PolicyInfix: string := ":policy/"

  /** The account id of the default ARNs. */
  function Account(env: Environment): string
  {
    Getenv(env, AccountVar, DefaultAccount)
  }

  /** The ARN of a customer-managed policy of an account. */
  function PolicyArn(account: string, name: string): string
  {
    ArnPrefix + account + PolicyInfix + name
  }

  /** `get_policy_arns`: each entry is its variable's value when set, otherwise the account's default ARN. */
  function GetPolicyArns(env: Environment): (arns: seq<string>)
    ensures |arns| == |PolicyVars| == |PolicyNames| == 5
    ensures forall i :: 0 <= i < 5 ==>
      arns[i] == if PolicyVars[i] in env then env[PolicyVars[i]] else PolicyArn(Account(env), PolicyNames[i])
  {
    var account := Account(env);
    [ Getenv(env, "POLICY_ARN_ALLOW_NON_OVERKILL", PolicyArn(account, "AllowNonOverkill")),
      Getenv(env, "POLICY_ARN_IAM_BASIC_ACCESS", PolicyArn(account, "IAMBasicAccess")),
      Getenv(env, "POLICY_ARN_SAFE_POWER_USER", PolicyArn(account, "SafePowerUser")),
      Getenv(env, "POLICY_ARN_CONTROL_OWN_RESOURCES", PolicyArn(account, "ControlOnlyOwnResources")),
      Getenv(env, "POLICY_ARN_RESTRICT_REGION_VIRGINIA", PolicyArn(account, "RestrictRegionVirginia")) ]
  }

  /** Two policy ARNs of one account are equal only for the same policy name. */
  lemma PolicyArnInjective(account: string, n1: string, n2: string)
    requires PolicyArn(account, n1) == PolicyArn(account, n2)
    ensures n1 == n2
  {
    var k := |ArnPrefix + account + PolicyInfix|;
    assert n1 == PolicyArn(account, n1)[k..];
    assert n2 == PolicyArn(account, n2)[k..];
  }

  /**
   * With no override set, the five ARNs are the default ones of the
   * account, `YOUR_ACCOUNT_ID` when that is unset too, and no two are equal.
   */
  lemma DefaultPolicyArns(env: Environment)
    requires forall i :: 0 <= i < |PolicyVars| ==> PolicyVars[i] !in env
    ensures forall i :: 0 <= i < 5 ==> GetPolicyArns(env)[i] == PolicyArn(Account(env), PolicyNames[i])
    ensures AccountVar !in env ==> Account(env) == DefaultAccount
    ensures forall i, j :: 0 <= i < j < 5 ==> GetPolicyArns(env)[i] != GetPolicyArns(env)[j]
  {
    var arns := GetPolicyArns(env);
    forall i, j | 0 <= i < j < 5
      ensures arns[i] != arns[j]
    {
      if arns[i] == arns[j] {
        PolicyArnInjective(Account(env), PolicyNames[i], PolicyNames[j]);
      }
    }
  }

  /**
   * A variable set to the empty string is still an override: its ARN is
   * the empty string, even though the check of required variables reports
   * it as missing.
   */
  lemma EmptyOverrideKept(env: Environment)
    requires "POLICY_ARN_ALLOW_NON_OVERKILL" in env && env["POLICY_ARN_ALLOW_NON_OVERKILL"] == ""
    ensures GetPolicyArns(env)[0] == ""
    ensures "POLICY_ARN_ALLOW_NON_OVERKILL" in MissingVars(env)
  {
    assert PolicyVars[0] == "POLICY_ARN_ALLOW_NON_OVERKILL";
    assert !Truthy(env, RequiredVars[0]);
  }

  // ---------------------------------------------------------------------
  // The embedded array
  // ---------------------------------------------------------------------

  const Indent: string := "                          "

  /** One line of the array: the indentation, then the ARN in double quotes. */
  function FormatArn(arn: string): (line: string)
    ensures |line| == |Indent| + |arn| + 2
    ensures line[..|Indent| + 1] == Indent + "\"" && line[|Indent| + 1..|line| - 1] == arn
    ensures line[|line| - 1] == '"'
  {
    Indent + "\"" + arn + "\""
  }

  function FormatAll(arns: seq<string>): (lines: seq<string>)
    ensures |lines| == |arns|
    ensures forall i :: 0 <= i < |arns| ==> lines[i] == FormatArn(arns[i])
  {
    seq(|arns|, i requires 0 <= i < |arns| => FormatArn(arns[i]))
  }

  /** `generate_policy_array_string`: the formatted lines joined by a comma and a newline. */
  function GeneratePolicyArrayString(arns: seq<string>): string
  {
    Join(FormatAll(arns), ",\n")
  }

  /** The lines of the array as a newline split sees them: every line but the last ends in a comma. */
  function ArrayLines(arns: seq<string>): (lines: seq<string>)
    ensures |lines| == |arns|
    ensures forall i :: 0 <= i < |arns| ==>
      lines[i] == FormatArn(arns[i]) + (if i < |arns| - 1 then "," else "")
  {
    seq(|arns|, i requires 0 <= i < |arns| => FormatArn(arns[i]) + (if i < |arns| - 1 then "," else ""))
  }

  /** Joining on a comma and a newline is joining the comma-ended lines on a newline. */
  lemma {:induction false} JoinCommaNewline(arns: seq<string>)
    ensures Join(FormatAll(arns), ",\n") == Join(ArrayLines(arns), "\n")
    decreases |arns|
  {
    if |arns| > 1 {
      var rest := arns[1..];
      JoinCommaNewline(rest);
      assert FormatAll(arns)[1..] == FormatAll(rest);
      assert ArrayLines(arns)[1..] == ArrayLines(rest);
      assert FormatArn(arns[0]) + ",\n" + Join(FormatAll(rest), ",\n")
          == (FormatArn(arns[0]) + ",") + "\n" + Join(ArrayLines(rest), "\n");
    }
  }

  /** No line of the array is empty, as the quotes are always there. */
  lemma {:induction false} ArrayLinesFree(arns: seq<string>)
    requires forall i :: 0 <= i < |arns| ==> '\n' !in arns[i]
    ensures forall i :: 0 <= i < |arns| ==> '\n' !in ArrayLines(arns)[i]
  {
    forall i | 0 <= i < |arns|
      ensures '\n' !in ArrayLines(arns)[i]
    {
      var l := ArrayLines(arns)[i];
      assert l == Indent + "\"" + arns[i] + "\"" + (if i < |arns| - 1 then "," else "");
      assert forall c :: c in Indent ==> c == ' ';
    }
  }

  /**
   * The array has one line per ARN, in the order of the list: line i is
   * the indented, quoted ARN i, followed by a comma on every line but the
   * last; no list gives the empty string.
   */
  lemma ArraySplits(arns: seq<string>)
    requires forall i :: 0 <= i < |arns| ==> '\n' !in arns[i]
    ensures |arns| == 0 ==> GeneratePolicyArrayString(arns) == ""
    ensures |arns| > 0 ==> Split(GeneratePolicyArrayString(arns), '\n') == ArrayLines(arns)
  {
    if |arns| > 0 {
      JoinCommaNewline(arns);
      ArrayLinesFree(arns);
      SplitJoin(ArrayLines(arns), '\n');
    }
  }

  /** The ARN of one line of the array: drop the indentation, the quotes and a trailing comma. */
  function ParseLine(line: string): string
  {
    var n := |Indent| + 1;
    var close := if |line| > 0 && line[|line| - 1] == ',' then 2 else 1;
    if |line| < n + close then "" else line[n..|line| - close]
  }

  /** The ARNs of an array string, read back line by line. */
  function ParseArray(s: string): seq<string>
  {
    if s == "" then []
    else
      var lines := Split(s, '\n');
      seq(|lines|, i requires 0 <= i < |lines| => ParseLine(lines[i]))
  }

  /** Reading the array back gives the ARNs, in order, when none holds a newline. */
  lemma ParseArrayRoundTrip(arns: seq<string>)
    requires forall i :: 0 <= i < |arns| ==> '\n' !in arns[i]
    ensures ParseArray(GeneratePolicyArrayString(arns)) == arns
  {
    ArraySplits(arns);
    var s := GeneratePolicyArrayString(arns);
    if |arns| > 0 {
      var lines := ArrayLines(arns);
      JoinCommaNewline(arns);
      assert |s| >= |lines[0]| by {
        if |lines| > 1 {
          assert s == lines[0] + "\n" + Join(lines[1..], "\n");
        }
      }
      forall i | 0 <= i < |arns|
        ensures ParseLine(lines[i]) == arns[i]
      {
        ParseFormatted(arns[i], i < |arns| - 1);
      }
    }
  }

  /** A line of the array, with or without its comma, gives back its ARN. */
  lemma ParseFormatted(arn: string, comma: bool)
    ensures ParseLine(FormatArn(arn) + (if comma then "," else "")) == arn
  {
    var f := FormatArn(arn);
    if comma {
      assert (f + ",")[|Indent| + 1..|f| - 1] == f[|Indent| + 1..|f| - 1];
    } else {
      assert f + "" == f;
    }
  }

  /**
   * The arrays embedded in the create and the delete handlers. They are equal
   * by construction, both rendered from one list of ARNs; what that array
   * holds is stated by `PolicyArraysReadBack`.
   */
  function PolicyArrays(env: Environment): (arrays: (string, string))
    ensures arrays.0 == arrays.1
  {
    var policyArns := GetPolicyArns(env);
    var create := GeneratePolicyArrayString(policyArns);
    var delete := GeneratePolicyArrayString(policyArns);
    (create, delete)
  }

  lemma DefaultArnFree(env: Environment, i: nat)
    requires forall name :: name in env ==> '\n' !in env[name]
    requires i < 5
    ensures '\n' !in PolicyArn(Account(env), PolicyNames[i])
  {
    var account := Account(env);
    assert '\n' !in account;
    var n := PolicyNames[i];
    assert '\n' !in n by {
      assert forall k :: 0 <= k < 5 ==> '\n' !in PolicyNames[k];
    }
    assert '\n' !in ArnPrefix && '\n' !in PolicyInfix;
    assert PolicyArn(account, n) == ArnPrefix + account + PolicyInfix + n;
  }

  /** With no newline in the environment, the embedded array reads back as the five ARNs, in order. */
  lemma PolicyArraysReadBack(env: Environment)
    requires forall name :: name in env ==> '\n' !in env[name]
    ensures ParseArray(PolicyArrays(env).0) == GetPolicyArns(env)
    ensures |Split(PolicyArrays(env).0, '\n')| == 5
  {
    var arns := GetPolicyArns(env);
    forall i | 0 <= i < 5
      ensures '\n' !in arns[i]
    {
      if PolicyVars[i] !in env {
        DefaultArnFree(env, i);
      }
    }
    ParseArrayRoundTrip(arns);
    ArraySplits(arns);
  }

  // ---------------------------------------------------------------------
  // Required variables
  // ---------------------------------------------------------------------

  const RequiredVars: seq<string> := ["POLICY_ARN_ALLOW_NON_OVERKILL", "DEFAULT_USER_PASSWORD"]

  /** The variables of the list that are unset or empty, in the order of the list. */
  function Unset(vars: seq<string>, env: Environment): (r: seq<string>)
    ensures |r| <= |vars|
    decreases |vars|
  {
    if |vars| == 0 then []
    else
      var n := |vars| - 1;
      Unset(vars[..n], env) + (if Truthy(env, vars[n]) then [] else [vars[n]])
  }

  /** Exactly the unset or empty variables of the list are reported. */
  lemma {:induction false} UnsetMembers(vars: seq<string>, env: Environment)
    ensures forall v :: v in Unset(vars, env) <==> v in vars && !Truthy(env, v)
    decreases |vars|
  {
    if |vars| > 0 {
      var n := |vars| - 1;
      UnsetMembers(vars[..n], env);
      assert vars == vars[..n] + [vars[n]];
    }
  }

  /** The filter keeps the order: it works variable by variable over any split of the list. */
  lemma {:induction false} UnsetConcat(a: seq<string>, b: seq<string>, env: Environment)
    ensures Unset(a + b, env) == Unset(a, env) + Unset(b, env)
    decreases |b|
  {
    if |b| == 0 {
      assert a + b == a;
    } else {
      var n := |b| - 1;
      assert (a + b)[..|a| + n] == a + b[..n];
      assert (a + b)[|a| + n] == b[n];
      UnsetConcat(a, b[..n], env);
    }
  }

  /** `missing_vars` in `main`. */
  function MissingVars(env: Environment): (missing: seq<string>)
    ensures forall v :: v in missing <==> v in RequiredVars && !Truthy(env, v)
    ensures |missing| <= 2
  {
    UnsetMembers(RequiredVars, env);
    Unset(RequiredVars, env)
  }

  /** Each required variable is reported on its own, first the ARN override, then the password. */
  lemma MissingVarsOrder(env: Environment)
    ensures MissingVars(env) ==
      (if Truthy(env, "POLICY_ARN_ALLOW_NON_OVERKILL") then [] else ["POLICY_ARN_ALLOW_NON_OVERKILL"]) +
      (if Truthy(env, "DEFAULT_USER_PASSWORD") then [] else ["DEFAULT_USER_PASSWORD"])
  {
    UnsetConcat([RequiredVars[0]], [RequiredVars[1]], env);
    assert RequiredVars == [RequiredVars[0]] + [RequiredVars[1]];
    assert [RequiredVars[0]][..0] == [];
    assert [RequiredVars[1]][..0] == [];
  }
}
