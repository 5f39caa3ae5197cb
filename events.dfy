/** The lifecycle events the adapter publishes, and the event emitters it
    publishes them through. */
module Events {
  import opened Js
  import opened TestTree

  /** One line decoration on a failed test: the editor line to mark and the
      remote message to show there. */
  datatype Decoration = Decoration(line: int, message: Option<string>)

  datatype SuiteState = Running | Completed

  /** `TestLoadStartedEvent | TestLoadFinishedEvent | TestRunStartedEvent |
      TestRunFinishedEvent | TestSuiteEvent | TestEvent`. A test event's
      `state` is a string because a remote result's state is copied into it
      verbatim; an absent list of decorations is the empty sequence. */
  datatype Event =
    | LoadStarted
    | LoadFinished(loaded: Option<Node>, errorMessage: Option<string>)
    | RunStarted(tests: seq<string>)
    | RunFinished
    | SuiteEvent(suite: string, suiteState: SuiteState)
    | TestEvent(test: string, state: string, message: Option<string>, decorations: seq<Decoration>)

  /** The `running` event of a test, which carries no message. */
  function TestRunning(id: string): Event {
    TestEvent(id, "running", None, [])
  }

  /** A `vscode.EventEmitter`: `log` holds every event fired on it, in
      order; `disposals` counts calls to `dispose`. */
  class Emitter {
    var log: seq<Event>
    var disposals: nat

    constructor ()
      ensures log == [] && disposals == 0
    {
      log := [];
      disposals := 0;
    }

    method Fire(e: Event)
      modifies this
      ensures log == old(log) + [e]
      ensures disposals == old(disposals)
    {
      log := log + [e];
    }

    method Dispose()
      modifies this
      ensures log == old(log)
      ensures disposals == old(disposals) + 1
    {
      disposals := disposals + 1;
    }
  }
}
