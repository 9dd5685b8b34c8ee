/**
 * The configuration monitor (ConfigurationMonitor): switches A/B testing on or off on this node from
 * the administrator's setting and the active tests, and raises the cache signal that tells the other
 * nodes to do the same.
 *
 * The administrator's IsEnabled setting is read when the change is handled, so it is a parameter. The
 * test handler's switch and the cache signal are stand-ins whose effects are recorded in `trace`.
 */
module Monitor {
  import opened Entities
  import opened Manager

  /** What the monitor does to its collaborators, in order. */
  datatype MonitorStep =
    | EnableABTesting      // ITestHandler.EnableABTesting
    | DisableABTesting     // ITestHandler.DisableABTesting
    | SignalReset          // ICacheSignal.Reset
    | SignalSet            // ICacheSignal.Set
    | SignalMonitor        // ICacheSignal.Monitor(HandleConfigurationChange)

  /** Whether A/B testing should run: enabled by the administrator, and at least one active test. */
  predicate ShouldEnable(isEnabled: bool, tests: seq<Test>)
  {
    isEnabled && |ActiveTests(tests)| >= 1
  }

  /** Testing runs exactly when the administrator enabled it and some stored test is Active. */
  lemma ShouldEnableIffActiveTest(isEnabled: bool, tests: seq<Test>)
    ensures ShouldEnable(isEnabled, tests) <==> isEnabled && exists t | t in tests :: t.state == Active
  {
    if isEnabled && exists t | t in tests :: t.state == Active {
      var t :| t in tests && t.state == Active;
      assert t in ActiveTests(tests);
    }
    if ShouldEnable(isEnabled, tests) {
      assert ActiveTests(tests)[0] in ActiveTests(tests);
    }
  }

  /** The steps of one HandleConfigurationChange: the switch, then Reset, then Set. */
  function ChangeSteps(isEnabled: bool, tests: seq<Test>): (r: seq<MonitorStep>)
    ensures |r| == 3 && r[1] == SignalReset && r[2] == SignalSet
    ensures r[0] == EnableABTesting || r[0] == DisableABTesting
    ensures r[0] == EnableABTesting <==> ShouldEnable(isEnabled, tests)
  {
    [if ShouldEnable(isEnabled, tests) then EnableABTesting else DisableABTesting, SignalReset, SignalSet]
  }

  class ConfigurationMonitor {
    const manager: TestManager
    /** Whether the test handler is switched on. */
    var testingEnabled: bool
    /** Whether the cache signal is set. */
    var signalIsSet: bool
    /** Whether HandleConfigurationChange is registered with the cache signal. */
    var monitoring: bool
    var trace: seq<MonitorStep>

    /** The constructor handles the configuration once, and only then starts monitoring the signal. */
    constructor (manager: TestManager, isEnabled: bool)
      ensures this.manager == manager
      ensures trace == ChangeSteps(isEnabled, manager.tests) + [SignalMonitor]
      ensures testingEnabled == ShouldEnable(isEnabled, manager.tests) && signalIsSet && monitoring
    {
      this.manager := manager;
      testingEnabled := false;
      signalIsSet := false;
      monitoring := false;
      trace := [];
      new;
      HandleConfigurationChange(isEnabled);
      monitoring := true;
      trace := trace + [SignalMonitor];
    }

    /**
     * HandleConfigurationChange: switches testing on when the administrator enabled it and some test is
     * active, off otherwise; in both cases resets the signal and then sets it.
     */
    method HandleConfigurationChange(isEnabled: bool)
      modifies this
      ensures testingEnabled == ShouldEnable(isEnabled, manager.tests)
      ensures signalIsSet
      ensures monitoring == old(monitoring)
      ensures trace == old(trace) + ChangeSteps(isEnabled, manager.tests)
    {
      if isEnabled && |ActiveTests(manager.tests)| >= 1 {
        testingEnabled := true;
        trace := trace + [EnableABTesting];
        signalIsSet := false;
        trace := trace + [SignalReset];
      } else {
        testingEnabled := false;
        trace := trace + [DisableABTesting];
        signalIsSet := false;
        trace := trace + [SignalReset];
      }
      signalIsSet := true;
      trace := trace + [SignalSet];
    }
  }
}
