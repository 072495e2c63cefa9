/** The session loop of `main`: input events drive the chat panel, a submission
    starts a worker that runs the AI request, and a finished reply is moved into the
    display history. Threads are modelled as explicit steps: a worker finishing and the
    storage worker taking one item are methods the environment may call between frames. */
module Session {
  import opened Messages
  import opened Memory
  import opened Conversation
  import opened ChatPanel
  import opened Animation

  datatype Option<T> = None | Some(value: T)

  /** The keys the loop reacts to; every other key is `OtherKey`. */
  datatype Key = Escape | Return | Backspace | Tab | OtherKey

  /** The events the loop reacts to; every other event is `OtherEvent`. */
  datatype Event = Quit | KeyDown(key: Key) | TextEditing(text: string) | TextInput(text: string) | OtherEvent

  /** A request thread: the text it was started with and whether it is still running. */
  datatype Worker = Worker(text: string, alive: bool)

  /** The event ends the loop. */
  predicate Stops(e: Event)
  {
    e == Quit || e == KeyDown(Escape)
  }

  /** `s[:-1]`: the text without its last character (empty stays empty). */
  function DropLast(s: string): (r: string)
    ensures |s| > 0 ==> r + [s[|s| - 1]] == s
    ensures |s| == 0 ==> r == []
  {
    if |s| == 0 then s else s[..|s| - 1]
  }

  /** The texts of the user entries of a display history, in order. */
  function UserTexts(history: seq<DisplayEntry>): seq<string>
  {
    if history == [] then []
    else
      var last := history[|history| - 1];
      UserTexts(history[..|history| - 1]) + (if last.role == User then [last.text] else [])
  }

  lemma {:induction false} UserTextsSnoc(history: seq<DisplayEntry>, e: DisplayEntry)
    ensures UserTexts(history + [e]) == UserTexts(history) + (if e.role == User then [e.text] else [])
  {
    assert (history + [e])[..|history|] == history;
  }

  /** The texts the request threads were started with, in start order. */
  function WorkerTexts(workers: seq<Worker>): seq<string>
  {
    seq(|workers|, (i: int) requires 0 <= i < |workers| => workers[i].text)
  }

  /** `if current_reply`: a reply is pending and is not the empty string. */
  predicate HasReply(reply: Option<string>)
  {
    reply.Some? && reply.value != []
  }

  /** Every shown entry has text, every user entry has non-whitespace text, and the
      user entries are exactly the texts the request threads were started with, in the
      same order. */
  ghost predicate ShownHistory(history: seq<DisplayEntry>, workers: seq<Worker>)
  {
    && (forall i :: 0 <= i < |history| ==> history[i].text != [])
    && (forall i :: 0 <= i < |history| && history[i].role == User ==> !AllSpace(history[i].text))
    && UserTexts(history) == WorkerTexts(workers)
  }

  /** Submitting a non-blank text adds a user entry and a thread with that text. */
  lemma {:induction false} SubmitKeepsShownHistory(history: seq<DisplayEntry>, workers: seq<Worker>, text: string)
    requires ShownHistory(history, workers) && !AllSpace(text)
    ensures ShownHistory(history + [DisplayEntry(User, text)], workers + [Worker(text, true)])
  {
    UserTextsSnoc(history, DisplayEntry(User, text));
    assert text != [];
    assert WorkerTexts(workers + [Worker(text, true)]) == WorkerTexts(workers) + [text];
  }

  /** Showing a non-empty reply adds an assistant entry and leaves the user entries alone. */
  lemma {:induction false} ReplyKeepsShownHistory(history: seq<DisplayEntry>, workers: seq<Worker>, reply: string)
    requires ShownHistory(history, workers) && reply != []
    ensures ShownHistory(history + [DisplayEntry(Assistant, reply)], workers)
  {
    UserTextsSnoc(history, DisplayEntry(Assistant, reply));
  }

  /** A thread finishing does not change which texts were submitted. */
  lemma {:induction false} FinishKeepsShownHistory(history: seq<DisplayEntry>, workers: seq<Worker>, i: nat)
    requires ShownHistory(history, workers) && i < |workers|
    ensures ShownHistory(history, workers[i := Worker(workers[i].text, false)])
  {
    assert WorkerTexts(workers[i := Worker(workers[i].text, false)]) == WorkerTexts(workers);
  }

  /** The chat panel's input buffer, composition preview and activation flag. */
  datatype InputState = InputState(inputText: string, composingText: string, active: bool)

  /** Return on an active panel whose input is not blank after `strip()`. */
  predicate Submits(st: InputState, e: Event)
  {
    e == KeyDown(Return) && st.active && Strip(st.inputText) != []
  }

  /** The effect of one event on the input state. Return, Backspace and the text
      events are ignored while the panel is inactive; Return with blank input does
      nothing; a submission clears both buffers. */
  function NextInput(st: InputState, e: Event): (next: InputState)
    ensures next.active == (if e == KeyDown(Tab) then !st.active else st.active)
    ensures !st.active && e != KeyDown(Tab) ==> next == st
    ensures Submits(st, e) ==> next.inputText == [] && next.composingText == []
    ensures e == KeyDown(Return) && !Submits(st, e) ==> next == st
    ensures e.TextInput? && st.active ==> next.inputText == st.inputText + e.text && next.composingText == []
    ensures e == KeyDown(Backspace) && st.active ==> next == st.(inputText := DropLast(st.inputText))
    ensures e.TextEditing? && st.active ==> next == st.(composingText := e.text)
    ensures e == KeyDown(Tab) ==> next == st.(active := !st.active)
    ensures e in {Quit, KeyDown(Escape), KeyDown(OtherKey), OtherEvent} ==> next == st
  {
    match e
    case KeyDown(Return) =>
      if Submits(st, e) then st.(inputText := [], composingText := []) else st
    case KeyDown(Backspace) =>
      if st.active then st.(inputText := DropLast(st.inputText)) else st
    case KeyDown(Tab) => st.(active := !st.active)
    case TextEditing(text) =>
      if st.active then st.(composingText := text) else st
    case TextInput(text) =>
      if st.active then st.(inputText := st.inputText + text, composingText := []) else st
    case _ => st
  }

  class SessionLoop {
    const ui: ChatUI
    const anim: CharacterAnimation
    const memory: MemorySystem
    const aiChat: AIChat
    var running: bool
    /** `current_reply`, written by a worker and read by the loop. */
    var currentReply: Option<string>
    /** Every request thread started so far; the last one is `request_thread`. */
    var workers: seq<Worker>

    /** The components are consistent and the display history agrees with the
        request threads. */
    ghost predicate Valid()
      reads this, ui, anim, memory, memory.dbManager, aiChat
    {
      ui.Valid() && anim.Valid() && memory.Valid() && aiChat.memory == memory &&
      ShownHistory(ui.history, workers)
    }

    /** Builds the components; `now` is the clock reading and `stored` the history
        table left by earlier runs. */
    constructor (now: int, stored: seq<Message>)
      ensures Valid()
      ensures running && currentReply == None && workers == []
      ensures ui.history == [] && ui.inputText == [] && ui.composingText == [] && !ui.active
      ensures memory.context == [] && memory.dbManager.rows == stored && memory.dbManager.queue == []
      ensures fresh(ui) && fresh(anim) && fresh(memory) && fresh(memory.dbManager) && fresh(aiChat)
    {
      anim := new CharacterAnimation(now);
      var m := new MemorySystem(stored);
      memory := m;
      ui := new ChatUI();
      aiChat := new AIChat(m);
      running := true;
      currentReply := None;
      workers := [];
    }

    /** The `Return` branch: with `strip()` of the input non-empty it starts a request
        thread with the untrimmed input, shows the input as a user entry and clears both
        buffers; otherwise nothing changes. */
    method Submit()
      requires Valid() && ui.active
      modifies this`workers, ui`history, ui`inputText, ui`composingText
      ensures Valid() && ui.active
      ensures InputState(ui.inputText, ui.composingText, ui.active) ==
                NextInput(InputState(old(ui.inputText), old(ui.composingText), old(ui.active)), KeyDown(Return))
      ensures Strip(old(ui.inputText)) != [] ==>
                && workers == old(workers) + [Worker(old(ui.inputText), true)]
                && ui.history == old(ui.history) + [DisplayEntry(User, old(ui.inputText))]
      ensures Strip(old(ui.inputText)) == [] ==> workers == old(workers) && ui.history == old(ui.history)
    {
      if Strip(ui.inputText) != [] {
        StripEmptyIffBlank(ui.inputText);
        var entry := DisplayEntry(User, ui.inputText);
        SubmitKeepsShownHistory(ui.history, workers, ui.inputText);
        workers := workers + [Worker(ui.inputText, true)];
        ui.history := ui.history + [entry];
        ui.inputText := [];
        ui.composingText := [];
      }
    }

    /** One pass of the event branches of the loop: the buffers and the activation
        flag change as `NextInput` says, and a submission starts a thread and shows the
        untrimmed input. */
    method HandleEvent(e: Event)
      requires Valid()
      modifies this`running, this`workers, ui`history, ui`inputText, ui`composingText, ui`active
      ensures Valid()
      ensures running == (old(running) && !Stops(e))
      ensures InputState(ui.inputText, ui.composingText, ui.active) ==
                NextInput(InputState(old(ui.inputText), old(ui.composingText), old(ui.active)), e)
      ensures Submits(InputState(old(ui.inputText), old(ui.composingText), old(ui.active)), e) ==>
                && workers == old(workers) + [Worker(old(ui.inputText), true)]
                && ui.history == old(ui.history) + [DisplayEntry(User, old(ui.inputText))]
      ensures !Submits(InputState(old(ui.inputText), old(ui.composingText), old(ui.active)), e) ==>
                workers == old(workers) && ui.history == old(ui.history)
    {
      match e
      case Quit =>
        running := false;
      case KeyDown(key) =>
        HandleKey(key);
      case TextEditing(text) =>
        if ui.active {
          ui.composingText := text;
        }
      case TextInput(text) =>
        if ui.active {
          ui.inputText := ui.inputText + text;
          ui.composingText := [];
        }
      case OtherEvent =>
    }

    /** The KEYDOWN branch. */
    method HandleKey(key: Key)
      requires Valid()
      modifies this`running, this`workers, ui`history, ui`inputText, ui`composingText, ui`active
      ensures Valid()
      ensures running == (old(running) && key != Escape)
      ensures InputState(ui.inputText, ui.composingText, ui.active) ==
                NextInput(InputState(old(ui.inputText), old(ui.composingText), old(ui.active)), KeyDown(key))
      ensures Submits(InputState(old(ui.inputText), old(ui.composingText), old(ui.active)), KeyDown(key)) ==>
                && workers == old(workers) + [Worker(old(ui.inputText), true)]
                && ui.history == old(ui.history) + [DisplayEntry(User, old(ui.inputText))]
      ensures !Submits(InputState(old(ui.inputText), old(ui.composingText), old(ui.active)), KeyDown(key)) ==>
                workers == old(workers) && ui.history == old(ui.history)
    {
      if key == Escape {
        running := false;
      } else if key == Return && ui.active {
        Submit();
      } else if key == Backspace && ui.active {
        ui.inputText := DropLast(ui.inputText);
      } else if key == Tab {
        ui.active := !ui.active;
      }
    }

    /** Request thread `i` finishes: it runs the AI request for its text against the
        provider call `post` and stores the returned text in `current_reply`,
        overwriting any reply not yet shown. */
    method CompleteWorker(i: nat, post: Payload -> Response)
      requires Valid() && i < |workers| && workers[i].alive
      modifies this`workers, this`currentReply, memory, memory.dbManager
      ensures Valid()
      ensures workers == old(workers)[i := Worker(old(workers)[i].text, false)]
      ensures var response := post(Payload(MODEL, BuildMessages(old(memory.GetContext(CONTEXT_WINDOW)), old(workers)[i].text)));
        && (response.Ok? ==>
              && currentReply == Some(response.reply)
              && memory.context == old(memory.context) + [Message(User, old(workers)[i].text), Message(Assistant, response.reply)]
              && memory.dbManager.queue == old(memory.dbManager.queue) + Enqueued([Message(User, old(workers)[i].text), Message(Assistant, response.reply)])
              && memory.dbManager.rows == old(memory.dbManager.rows)
              && memory.dbManager.submitted == old(memory.dbManager.submitted) + [Message(User, old(workers)[i].text), Message(Assistant, response.reply)])
        && (response.Err? ==>
              && currentReply == Some(ErrorText(response.error))
              && unchanged(memory, memory.dbManager))
    {
      var reply := aiChat.SendRequest(workers[i].text, post);
      FinishKeepsShownHistory(ui.history, workers, i);
      currentReply := Some(reply);
      workers := workers[i := Worker(workers[i].text, false)];
    }

    /** The storage worker takes one item off the write queue. */
    method StorageStep() returns (processed: bool)
      requires Valid()
      modifies memory.dbManager
      ensures Valid()
      ensures processed <==> old(memory.dbManager.queue) != []
      ensures processed ==>
                && memory.dbManager.queue == old(memory.dbManager.queue)[1..]
                && memory.dbManager.rows == old(memory.dbManager.rows) + Applied(old(memory.dbManager.queue)[..1])
      ensures !processed ==> unchanged(memory.dbManager)
    {
      processed := memory.dbManager.ProcessNext();
    }

    /** Moves a finished, non-empty reply into the display history once no request
        thread is running (or none was ever started); otherwise nothing changes. */
    method DrainReply()
      requires Valid()
      modifies this`currentReply, ui`history
      ensures Valid()
      ensures HasReply(old(currentReply)) && (workers == [] || !workers[|workers| - 1].alive) ==>
                ui.history == old(ui.history) + [DisplayEntry(Assistant, old(currentReply).value)] &&
                currentReply == None
      ensures !(HasReply(old(currentReply)) && (workers == [] || !workers[|workers| - 1].alive)) ==>
                ui.history == old(ui.history) && currentReply == old(currentReply)
    {
      if HasReply(currentReply) && (workers == [] || !workers[|workers| - 1].alive) {
        var entry := DisplayEntry(Assistant, currentReply.value);
        ReplyKeepsShownHistory(ui.history, workers, currentReply.value);
        ui.history := ui.history + [entry];
        currentReply := None;
      }
    }

    /** One iteration of the main loop: all pending events in order, then the animation
        and cursor timers, then the reply drain. The loop stops exactly when one of the
        events was a quit or an escape. */
    method Tick(events: seq<Event>, dt: nat, now: int)
      requires Valid() && running
      modifies this`running, this`workers, this`currentReply, ui, anim`frameIndex, anim`lastUpdate
      ensures Valid()
      ensures running <==> forall j :: 0 <= j < |events| ==> !Stops(events[j])
    {
      for i := 0 to |events|
        invariant Valid()
        invariant running <==> forall j :: 0 <= j < i ==> !Stops(events[j])
      {
        HandleEvent(events[i]);
      }
      anim.Update(now);
      ui.Update(dt);
      DrainReply();
    }
  }

  /** A user activates the panel with Tab and types "hello". */
  method TypeHello(s: SessionLoop)
    requires s.Valid() && !s.ui.active && s.ui.inputText == [] && s.ui.composingText == []
    modifies s, s.ui
    ensures s.Valid() && s.ui.active && s.ui.inputText == "hello" && s.ui.composingText == []
    ensures s.ui.history == old(s.ui.history) && s.workers == old(s.workers)
    ensures s.currentReply == old(s.currentReply) && s.running == old(s.running)
  {
    s.HandleEvent(KeyDown(Tab));
    s.HandleEvent(TextInput("hello"));
  }

  /** Return on "hello" shows it as a user entry, starts one thread and clears the input. */
  method SubmitHello(s: SessionLoop)
    requires s.Valid() && s.ui.active && s.ui.inputText == "hello"
    modifies s, s.ui
    ensures s.Valid()
    ensures s.ui.history == old(s.ui.history) + [DisplayEntry(User, "hello")]
    ensures s.workers == old(s.workers) + [Worker("hello", true)]
    ensures s.ui.inputText == [] && s.ui.composingText == []
    ensures s.currentReply == old(s.currentReply) && s.running == old(s.running)
  {
    StripEmptyIffBlank("hello");
    assert !IsSpace("hello"[0]);
    s.HandleEvent(KeyDown(Return));
  }

  /** The thread for "hello" finishes with `reply`, and the next frame shows it. */
  method ReplyArrives(s: SessionLoop, reply: string)
    requires s.Valid() && reply != []
    requires s.workers == [Worker("hello", true)] && s.currentReply == None
    modifies s, s.ui, s.memory, s.memory.dbManager
    ensures s.Valid()
    ensures s.ui.history == old(s.ui.history) + [DisplayEntry(Assistant, reply)]
    ensures s.memory.dbManager.submitted == old(s.memory.dbManager.submitted) + [Message(User, "hello"), Message(Assistant, reply)]
  {
    s.CompleteWorker(0, (p: Payload) => Ok(reply));
    s.DrainReply();
  }

  /** After "hello" was submitted to a fresh session: a drain before the thread has
      finished shows nothing, then the reply appears as the one assistant entry, and
      after the storage worker has run the table holds the user message and the reply. */
  method FinishHello(s: SessionLoop, reply: string)
    requires s.Valid() && reply != []
    requires s.workers == [Worker("hello", true)] && s.currentReply == None
    requires s.ui.history == [DisplayEntry(User, "hello")] && s.memory.dbManager.submitted == []
    modifies s, s.ui, s.memory, s.memory.dbManager
    ensures s.ui.history == [DisplayEntry(User, "hello"), DisplayEntry(Assistant, reply)]
    ensures s.memory.dbManager.rows == [Message(User, "hello"), Message(Assistant, reply)]
  {
    s.DrainReply();
    ReplyArrives(s, reply);
    s.memory.dbManager.ProcessQueue();
  }

  /** The whole exchange on a fresh session with an empty table: the user entry
      appears at once, and the reply and the stored rows follow as `FinishHello` says.
      Returns the final display history and the final table. */
  method HelloScenario(reply: string) returns (history: seq<DisplayEntry>, rows: seq<Message>)
    requires reply != []
    ensures history == [DisplayEntry(User, "hello"), DisplayEntry(Assistant, reply)]
    ensures rows == [Message(User, "hello"), Message(Assistant, reply)]
  {
    var s := new SessionLoop(0, []);
    TypeHello(s);
    SubmitHello(s);
    assert s.ui.history == [DisplayEntry(User, "hello")];
    FinishHello(s, reply);
    history, rows := s.ui.history, s.memory.dbManager.rows;
  }
}
