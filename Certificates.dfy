/**
 * `ensureSSLConfigured`: when the app has SSL domains, the HTTPS listener
 * options of its environment are compared with the wanted ones, and the
 * full wanted list is written, followed by a strict wait for the
 * environment, only when some wanted option is missing or differs.
 */
module Certificates {
  import opened Results
  import opened Cloud
  import Utils
  import Reconcile

  const ListenerNamespace := "aws:elbv2:listener:443"
  const SslPolicy := "ELBSecurityPolicy-TLS13-1-2-2021-06"

  /** The key of an option in the settings object: its namespace and its name. */
  function Key(s: OptionSetting): (string, string)
  {
    (s.namespace, s.optionName)
  }

  /** The five listener options the HTTPS listener needs, the certificate first. */
  function DesiredOptions(certificateArn: string): (r: seq<OptionSetting>)
    ensures |r| == 5 && forall i :: 0 <= i < 5 ==> r[i].namespace == ListenerNamespace
    ensures r[0] == OptionSetting(ListenerNamespace, "SSLCertificateArns", certificateArn)
    ensures forall i, j :: 0 <= i < j < 5 ==> r[i].optionName != r[j].optionName
  {
    [OptionSetting(ListenerNamespace, "SSLCertificateArns", certificateArn),
     OptionSetting(ListenerNamespace, "DefaultProcess", "default"),
     OptionSetting(ListenerNamespace, "ListenerEnabled", "true"),
     OptionSetting(ListenerNamespace, "Protocol", "HTTPS"),
     OptionSetting(ListenerNamespace, "SSLPolicy", SslPolicy)]
  }

  /** A list of options reduced to an object by key; a later option replaces an earlier one with its key. */
  function OptionMap(settings: seq<OptionSetting>): (m: map<(string, string), string>)
    ensures forall i :: 0 <= i < |settings| ==> Key(settings[i]) in m
    decreases |settings|
  {
    if settings == [] then map[]
    else
      var last := settings[|settings| - 1];
      OptionMap(settings[..|settings| - 1])[Key(last) := last.value]
  }

  /** Some wanted option is absent from the current ones or has another value; extra current options do not count. */
  predicate NeedToUpdate(current: map<(string, string), string>, desired: map<(string, string), string>)
  {
    exists k :: k in desired && (k !in current || current[k] != desired[k])
  }

  /** The calls after the settings were read: none, or the full wanted list and then a strict wait. */
  function SslPlan(current: seq<OptionSetting>, environment: string, certificateArn: string): (plan: seq<Call>)
    ensures plan == [] <==> !NeedToUpdate(OptionMap(current), OptionMap(DesiredOptions(certificateArn)))
    ensures plan != [] ==> plan == [UpdateEnvironment(environment, DesiredOptions(certificateArn)), WaitForEnvReady(environment, true)]
  {
    if NeedToUpdate(OptionMap(current), OptionMap(DesiredOptions(certificateArn))) then
      [UpdateEnvironment(environment, DesiredOptions(certificateArn)), WaitForEnvReady(environment, true)]
    else []
  }

  /** The domains decide whether anything is done: none given, or an empty list, means nothing. */
  predicate HasDomains(sslDomains: Option<seq<string>>)
  {
    sslDomains.Some? && |sslDomains.value| > 0
  }

  /** What `ensureSSLConfigured` does to the store: a failed read is rethrown before any call. */
  function SslEffect(c: Cloud, environment: string, sslDomains: Option<seq<string>>, certificateArn: string): (e: Effect)
    ensures !HasDomains(sslDomains) ==> e == Effect(c, [], Pass)
    ensures DescribeConfigurationSettings(c, environment).Err? ==> e.calls == []
    ensures HasDomains(sslDomains) && DescribeConfigurationSettings(c, environment).Err? ==>
      e == Effect(c, [], Fail(DescribeConfigurationSettings(c, environment).error))
    ensures HasDomains(sslDomains) && DescribeConfigurationSettings(c, environment).Ok? ==>
      e == Sequence(c, SslPlan(DescribeConfigurationSettings(c, environment).value, environment, certificateArn))
  {
    if !HasDomains(sslDomains) then Effect(c, [], Pass)
    else
      match DescribeConfigurationSettings(c, environment)
      case Err(error) => Effect(c, [], Fail(error))
      case Ok(settings) => Sequence(c, SslPlan(settings, environment, certificateArn))
  }

  method EnsureSSLConfigured(acct: Account, appName: string, envName: Option<string>,
                             sslDomains: Option<seq<string>>, certificateArn: string)
    returns (outcome: Outcome<ProviderError>)
    modifies acct
    ensures var e := SslEffect(old(acct.cloud), Utils.NamesOf(appName, envName).environment, sslDomains, certificateArn);
      Reconcile.Ran(acct, old(acct.calls), e) && outcome == e.outcome
  {
    var environment := Utils.NamesOf(appName, envName).environment;
    var ebConfig := DesiredOptions(certificateArn);
    if sslDomains.None? || |sslDomains.value| == 0 {
      return Pass;
    }
    var read := DescribeConfigurationSettings(acct.cloud, environment);
    if read.Err? {
      return Fail(read.error);
    }
    var current := OptionMap(read.value);
    var desired := OptionMap(ebConfig);
    if !NeedToUpdate(current, desired) {
      return Pass;
    }
    ghost var plan := [UpdateEnvironment(environment, ebConfig), WaitForEnvReady(environment, true)];
    assert plan[1..] == [WaitForEnvReady(environment, true)];
    outcome := acct.Invoke(UpdateEnvironment(environment, ebConfig));
    if outcome.Fail? {
      return;
    }
    SequenceOne(acct.cloud, WaitForEnvReady(environment, true));
    outcome := acct.Invoke(WaitForEnvReady(environment, true));
  }

  /** Every key of the object comes from some option of the list. */
  lemma {:induction false} OptionMapKeyOrigin(settings: seq<OptionSetting>, k: (string, string))
    requires k in OptionMap(settings)
    ensures exists i :: 0 <= i < |settings| && Key(settings[i]) == k
    decreases |settings|
  {
    var last := settings[|settings| - 1];
    if Key(last) != k {
      OptionMapKeyOrigin(settings[..|settings| - 1], k);
      var i :| 0 <= i < |settings| - 1 && Key(settings[..|settings| - 1][i]) == k;
      assert Key(settings[i]) == k;
    }
  }

  /** Option lists joined together reduce to the first list's object overridden by the second's. */
  lemma {:induction false} OptionMapConcat(a: seq<OptionSetting>, b: seq<OptionSetting>)
    ensures OptionMap(a + b) == OptionMap(a) + OptionMap(b)
    decreases |b|
  {
    if b == [] {
      assert a + b == a;
    } else {
      OptionMapConcat(a, b[..|b| - 1]);
      assert (a + b)[..|a + b| - 1] == a + b[..|b| - 1];
    }
  }

  /** The wanted options reduce to an object holding each of the five under its own key. */
  lemma DesiredMap(certificateArn: string)
    ensures var d := DesiredOptions(certificateArn);
      forall i :: 0 <= i < 5 ==> OptionMap(d)[Key(d[i])] == d[i].value
  {
    var d := DesiredOptions(certificateArn);
    forall i | 0 <= i < 5
      ensures OptionMap(d)[Key(d[i])] == d[i].value
    {
      OptionMapLast(d, i);
    }
  }

  /** An option whose key does not come back later in the list keeps its value in the object. */
  lemma {:induction false} OptionMapLast(settings: seq<OptionSetting>, i: nat)
    requires i < |settings|
    requires forall j :: i < j < |settings| ==> Key(settings[j]) != Key(settings[i])
    ensures OptionMap(settings)[Key(settings[i])] == settings[i].value
    decreases |settings|
  {
    if i < |settings| - 1 {
      OptionMapLast(settings[..|settings| - 1], i);
    }
  }

  /**
   * An update is needed exactly when one of the five wanted options is
   * missing from the current ones or holds another value.
   */
  lemma NeedToUpdateExactly(current: seq<OptionSetting>, certificateArn: string)
    ensures var d := DesiredOptions(certificateArn);
      var cur := OptionMap(current);
      NeedToUpdate(cur, OptionMap(d)) <==> exists i :: 0 <= i < 5 && (Key(d[i]) !in cur || cur[Key(d[i])] != d[i].value)
  {
    DesiredMap(certificateArn);
    var d := DesiredOptions(certificateArn);
    var cur := OptionMap(current);
    if NeedToUpdate(cur, OptionMap(d)) {
      var k :| k in OptionMap(d) && (k !in cur || cur[k] != OptionMap(d)[k]);
      OptionMapKeyOrigin(d, k);
    }
  }

  /** Current options under keys the listener does not use change nothing about the decision. */
  lemma SupersetTolerance(current: seq<OptionSetting>, extra: seq<OptionSetting>, certificateArn: string)
    requires forall j :: 0 <= j < |extra| ==> Key(extra[j]) !in OptionMap(DesiredOptions(certificateArn))
    ensures var desired := OptionMap(DesiredOptions(certificateArn));
      NeedToUpdate(OptionMap(current + extra), desired) <==> NeedToUpdate(OptionMap(current), desired)
  {
    OptionMapConcat(current, extra);
    var desired := OptionMap(DesiredOptions(certificateArn));
    forall k | k in desired
      ensures k !in OptionMap(extra)
    {
      if k in OptionMap(extra) {
        OptionMapKeyOrigin(extra, k);
      }
    }
    if NeedToUpdate(OptionMap(current), desired) {
      var k :| k in desired && (k !in OptionMap(current) || OptionMap(current)[k] != desired[k]);
      assert k !in OptionMap(current + extra) || OptionMap(current + extra)[k] != desired[k];
    }
  }

  /** After an update, the environment holds every wanted option: the update comes last and wins. */
  lemma UpdatedHoldsDesired(current: seq<OptionSetting>, certificateArn: string)
    ensures !NeedToUpdate(OptionMap(current + DesiredOptions(certificateArn)), OptionMap(DesiredOptions(certificateArn)))
  {
    OptionMapConcat(current, DesiredOptions(certificateArn));
  }

  /**
   * On a healthy environment with SSL domains, the check succeeds and a
   * second run issues no call: the first run's update leaves nothing to do.
   */
  lemma SslConverges(c: Cloud, environment: string, sslDomains: Option<seq<string>>, certificateArn: string)
    requires HasDomains(sslDomains) && environment in c.environments
    requires EnvironmentId(environment) !in c.readFaults && EnvironmentId(environment) !in c.writeFaults
    requires ReadinessId(environment) !in c.writeFaults
    ensures var e := SslEffect(c, environment, sslDomains, certificateArn);
      e.outcome == Pass && SslEffect(e.cloud, environment, sslDomains, certificateArn).calls == []
  {
    var current := c.environments[environment];
    if SslPlan(current, environment, certificateArn) != [] {
      UpdateThenWait(c, environment, DesiredOptions(certificateArn));
      UpdatedHoldsDesired(current, certificateArn);
    }
  }

  /**
   * The update appends the options to the environment's and the wait changes
   * nothing; the check resolves exactly when the wait does.
   */
  lemma UpdateThenWait(c: Cloud, environment: string, settings: seq<OptionSetting>)
    requires environment in c.environments && EnvironmentId(environment) !in c.writeFaults
    ensures var e := Sequence(c, [UpdateEnvironment(environment, settings), WaitForEnvReady(environment, true)]);
      && e.calls == [UpdateEnvironment(environment, settings), WaitForEnvReady(environment, true)]
      && (e.outcome == Pass <==> ReadinessId(environment) !in c.writeFaults)
      && environment in e.cloud.environments
      && e.cloud.environments[environment] == c.environments[environment] + settings
      && e.cloud.readFaults == c.readFaults && e.cloud.writeFaults == c.writeFaults
  {
    var update := UpdateEnvironment(environment, settings);
    var c1 := c.(environments := c.environments[environment := c.environments[environment] + settings]);
    ApplyUpdateEnvironment(c, environment, settings);
    ApplyWait(c1, environment, true);
    SequenceTwo(c, update, WaitForEnvReady(environment, true));
  }

  /**
   * A certificate that differs from the current one while everything else
   * matches leads to exactly one update, carrying the full wanted list,
   * followed by the strict wait.
   */
  lemma NewCertificateUpdatesOnce(environment: string, oldArn: string, newArn: string)
    requires oldArn != newArn
    ensures SslPlan(DesiredOptions(oldArn), environment, newArn)
         == [UpdateEnvironment(environment, DesiredOptions(newArn)), WaitForEnvReady(environment, true)]
  {
    DesiredMap(oldArn);
    DesiredMap(newArn);
    var k := Key(DesiredOptions(newArn)[0]);
    assert k in OptionMap(DesiredOptions(newArn));
    assert OptionMap(DesiredOptions(oldArn))[k] != OptionMap(DesiredOptions(newArn))[k];
  }
}
