/** The part of the engine's Application object that the editor shell talks to:
    the public run-state flags that the Play/Pause/Stop menu writes, and the
    request mailbox, four one-shot flags that the menus raise and the owning
    subsystems later consume. A flag is a single bit, not a queue, so a
    request raised several times before it is consumed is one request. */
module App {

  /** The four kinds of deferred request. */
  datatype Request = SaveConfig | LoadConfig | SaveScene | LoadScene

  /** The values of the four request flags at one moment. */
  datatype Mailbox = Mailbox(
    saveRequest: bool,
    loadRequest: bool,
    saveSceneRequest: bool,
    loadSceneRequest: bool)

  /** Whether the flag for requests of kind `k` is raised. */
  function Pending(m: Mailbox, k: Request): bool
  {
    match k
    case SaveConfig => m.saveRequest
    case LoadConfig => m.loadRequest
    case SaveScene => m.saveSceneRequest
    case LoadScene => m.loadSceneRequest
  }

  /** Two mailboxes with the same pending requests are the same mailbox. */
  lemma PendingDetermines(m: Mailbox, m': Mailbox)
    requires forall k :: Pending(m, k) == Pending(m', k)
    ensures m == m'
  {
    assert Pending(m, SaveConfig) == Pending(m', SaveConfig);
    assert Pending(m, LoadConfig) == Pending(m', LoadConfig);
    assert Pending(m, SaveScene) == Pending(m', SaveScene);
    assert Pending(m, LoadScene) == Pending(m', LoadScene);
  }

  /** The mailbox after one request of kind `k`: that flag raised and every
      other flag as it was. */
  function Raise(m: Mailbox, k: Request): (r: Mailbox)
    ensures Pending(r, k)
    ensures forall j :: j != k ==> Pending(r, j) == Pending(m, j)
  {
    match k
    case SaveConfig => m.(saveRequest := true)
    case LoadConfig => m.(loadRequest := true)
    case SaveScene => m.(saveSceneRequest := true)
    case LoadScene => m.(loadSceneRequest := true)
  }

  /** The mailbox after the requests `ks`, in order. */
  function RaiseAll(m: Mailbox, ks: seq<Request>): Mailbox
    decreases ks
  {
    if ks == [] then m else RaiseAll(Raise(m, ks[0]), ks[1..])
  }

  /** After any sequence of requests a flag is raised exactly when it was
      raised before or a request of its kind was among them: how many times
      and in which order they came does not matter. */
  lemma {:induction false} RequestsCollapse(m: Mailbox, ks: seq<Request>)
    ensures forall k :: Pending(RaiseAll(m, ks), k) == (Pending(m, k) || k in ks)
    decreases ks
  {
    if ks != [] {
      RequestsCollapse(Raise(m, ks[0]), ks[1..]);
      assert forall k :: k in ks <==> k == ks[0] || k in ks[1..];
    }
  }

  /** Two bursts of requests of the same kinds leave the same mailbox, so a
      request repeated within one frame is one request. */
  lemma SameKindsSameMailbox(m: Mailbox, ks: seq<Request>, ks': seq<Request>)
    requires forall k :: k in ks <==> k in ks'
    ensures RaiseAll(m, ks) == RaiseAll(m, ks')
  {
    RequestsCollapse(m, ks);
    RequestsCollapse(m, ks');
    PendingDetermines(RaiseAll(m, ks), RaiseAll(m, ks'));
  }

  /** Raising the same request twice is raising it once. */
  lemma RaiseIdempotent(m: Mailbox, k: Request)
    ensures Raise(Raise(m, k), k) == Raise(m, k)
  {
  }

  class Application {
    var debug: bool
    var pause: bool
    /** Set together with `pause` by the Stop command: the scene should go
        back to the state it had before Play. */
    var backToOriginal: bool

    var saveRequest: bool
    var loadRequest: bool
    var saveSceneRequest: bool
    var loadSceneRequest: bool

    /** The current request flags. */
    function Mail(): Mailbox
      reads this
    {
      Mailbox(saveRequest, loadRequest, saveSceneRequest, loadSceneRequest)
    }

    /** The scene request flags start lowered; the other flags get their first
        values in the constructor body, which is not part of this model, so
        they are parameters here. */
    constructor (debug: bool, pause: bool, backToOriginal: bool, saveRequest: bool, loadRequest: bool)
      ensures this.debug == debug && this.pause == pause && this.backToOriginal == backToOriginal
      ensures this.saveRequest == saveRequest && this.loadRequest == loadRequest
      ensures !saveSceneRequest && !loadSceneRequest
    {
      this.debug := debug;
      this.pause := pause;
      this.backToOriginal := backToOriginal;
      this.saveRequest := saveRequest;
      this.loadRequest := loadRequest;
      saveSceneRequest := false;
      loadSceneRequest := false;
    }

    /** Ask for the configuration to be saved. */
    method SaveConfigRequest()
      modifies this`saveRequest
      ensures saveRequest
      ensures Mail() == Raise(old(Mail()), SaveConfig)
    {
      saveRequest := true;
    }

    /** Ask for the configuration to be loaded. */
    method LoadConfigRequest()
      modifies this`loadRequest
      ensures loadRequest
      ensures Mail() == Raise(old(Mail()), LoadConfig)
    {
      loadRequest := true;
    }

    /** Ask for the scene to be saved. */
    method SaveSceneRequest()
      modifies this`saveSceneRequest
      ensures saveSceneRequest
      ensures Mail() == Raise(old(Mail()), SaveScene)
    {
      saveSceneRequest := true;
    }

    /** Ask for the scene to be loaded (spelled `LoadSceneRequesst` in the
        engine). */
    method LoadSceneRequest()
      modifies this`loadSceneRequest
      ensures loadSceneRequest
      ensures Mail() == Raise(old(Mail()), LoadScene)
    {
      loadSceneRequest := true;
    }
  }
}
