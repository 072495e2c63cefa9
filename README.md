# Companion chat: verified model of the sequential core

The program is a desktop companion chat. An animated character sits on the left. A chat panel on the right sends what the user types to a chat-completion provider and shows the replies. This project models the parts of `main.py` that are plain sequential logic, and proves what they promise:

- **Text layout.** The greedy per-character line breaking the panel uses to fit text into a pixel width (module `TextLayout`). Glyph metrics are an abstract `char -> nat` width function.
- **Animation.** The character's frame counter, a free-running cyclic index over the frames of the active state (module `Animation`). The clock reading is a parameter.
- **Chat panel.** Its buffers, activation flag and blinking cursor, plus Python's `str.strip()` over the characters `str.isspace` accepts (module `ChatPanel`).
- **Memory store.** A hot cache in front of a database manager (module `Memory`). The manager has a FIFO queue of pending `add_message` writes and a durable table that one storage worker fills from the queue. `get_context` reads the table: "newest first, limit n", then reversed.
- **Conversation client.** It assembles the request as system instruction, then stored context, then the user message (module `Conversation`). It commits the user message and the reply to memory only when the provider call succeeds; otherwise it returns an error text. The provider call is an opaque function from payload to `Ok(reply)` or `Err(error)`.
- **Session loop.** The event branches of `main`: quit, escape, Tab toggling the panel, IME composition, text input, backspace, and Return submitting non-blank input (module `Session`). It also covers starting a request thread per submission and moving a finished reply into the display history. Threads are explicit steps: `CompleteWorker` is one request thread finishing, and `StorageStep` is the storage worker taking one queue item.

Behaviour kept as the code has it:

- The code appends the untrimmed input to the display history and to the request. `strip()` is only the blank test.
- The hot cache is unbounded and never read. `get_context` reads the durable table only.
- No state-switching method exists, so the active animation state stays `idle`.
- The wrap emits an empty first line when the very first character alone is wider than the budget.

## Model

| member | source | states |
|---|---|---|
| TextLayout.RenderLines | main.py:171-192 | the wrap loop, including the final flush of a non-empty last line, computes exactly `Wrap`, the fold of the per-character break rule over the text |
| TextLayout.ScanSatisfiesInvariant | main.py:177-189 | after every prefix, four things hold: the loop state keeps the prefix's characters, tracks the current line's width, keeps every line within budget or a single character, and has only greedy breaks |
| TextLayout.WrapPreservesText | main.py:177-192 | joining the produced lines gives back the input exactly; there are no lines exactly when the input is empty |
| TextLayout.WrapLinesFit | main.py:183-189 | every produced line has width at most the budget, or is one character that alone exceeds it |
| TextLayout.WrapEmptyLines | main.py:183-186 | an empty line can only be line 0, and only when the first character is wider than the budget; conversely such a first character always yields an empty line 0 and at least two lines |
| TextLayout.FirstCharTooWide | main.py:183-186 | when the first character is too wide, the loop closes an empty line before it, and the current line is never empty afterwards |
| TextLayout.WrapIsGreedy | main.py:183-189 | every line after the first is non-empty, and its first character would have pushed the previous line over the budget |
| Animation.Advance | main.py:48 | the next index stays in range and is the old index plus one, wrapping to 0 after the last frame |
| Animation.AdvanceTimesIsModulo | main.py:43-49 | starting from frame 0, after `t` advances the counter shows frame `t mod count` (a free-running cyclic counter) |
| Animation.CharacterAnimation.constructor | main.py:24-34 | idle/happy/sad with 4/3/2 frames, state `idle`, index 0, speed 1.0, last update at the given clock reading; every state non-empty and the index in range |
| Animation.CharacterAnimation.CurrentFrames | main.py:48 | the active state's frame sequence is never empty |
| Animation.CharacterAnimation.Update | main.py:43-49 | when strictly more than 1000 ms have passed, the index advances by one modulo the frame count and the time is recorded; otherwise nothing changes; the index stays in range |
| Animation.CharacterAnimation.GetCurrentFrame | main.py:51-53 | the frame returned is one of the active state's frames (the lookup is never out of range) |
| ChatPanel.TrimLeftRemovesLeadingSpace | main.py:310 | stripping the left end removes exactly a whitespace prefix, and what is left does not start with whitespace |
| ChatPanel.TrimRightRemovesTrailingSpace | main.py:310 | stripping the right end removes exactly a whitespace suffix, and what is left does not end with whitespace |
| ChatPanel.StripEmptyIffBlank | main.py:310 | `strip()` gives the empty string exactly when every character is whitespace |
| ChatPanel.ChatUI.constructor | main.py:124-135 | empty history and buffers, cursor visible, blink timer 0, panel inactive |
| ChatPanel.ChatUI.Update | main.py:137-142 | when timer plus `dt` exceeds 500, visibility flips and the timer restarts at 0; otherwise the timer grows by `dt` and visibility is kept; the timer never exceeds 500 |
| Memory.Enqueued | main.py:220-222 | one queue item per `add_message` call |
| Memory.DrainKeepsCallOrder | main.py:237-246 | draining the items `add_message` enqueued writes the messages in exactly the order of the calls |
| Memory.RecentRows | main.py:224-231 | the context query returns `min(n, rows)` rows (all rows for a negative limit): the most recent ones, oldest first |
| Memory.DatabaseManager.constructor | main.py:206-210 | the table holds the stored history, the queue is empty |
| Memory.DatabaseManager.AddMessage | main.py:220-222 | exactly one `add_message` item is enqueued and no row is written yet; the rows plus the pending writes are still exactly the messages submitted |
| Memory.DatabaseManager.ProcessNext | main.py:239-246 | the oldest queue item is removed, and if it is an `add_message` its row is appended; an empty queue changes nothing |
| Memory.DatabaseManager.ProcessQueue | main.py:237-246 | after draining, the queue is empty, the old queue's writes were appended in order, and the table holds exactly what was submitted |
| Memory.DatabaseManager.GetContext | main.py:224-231 | `min(n, rows)` rows, the most recent, oldest first |
| Memory.MemorySystem.constructor | main.py:250-252 | empty hot cache in front of a fresh database manager over the stored table |
| Memory.MemorySystem.AddMessage | main.py:254-257 | exactly one entry appended to the hot cache, exactly one write queued, the table untouched |
| Memory.MemorySystem.GetContext | main.py:259-261 | reads through to the table: `min(n, rows)` most recent rows, oldest first |
| Conversation.RequestWindow | main.py:96-98 | a request carries at most 5 + 2 messages: the system instruction, the most recent stored messages oldest first (exactly 5 once at least 5 are stored), and the user message |
| Conversation.CommittedExchangeIsNextContext | main.py:114-116 | once a committed exchange is in the table, the next request's context ends with that user message followed by its reply |
| Conversation.AIChat.constructor | main.py:85-91 | the client uses the given memory |
| Conversation.AIChat.SendRequest | main.py:93-120 | the payload is the model name and the system instruction, then the 5 most recent stored rows oldest first (as `RequestWindow` characterizes them), then the user message. Ok: returns the reply, appends user then assistant to the cache, queues those two writes in that order, writes no row yet. Err: returns the fixed error prefix followed by the error, memory unchanged |
| Session.DropLast | main.py:319 | backspace removes the last character; an empty buffer stays empty |
| Session.SubmitKeepsShownHistory | main.py:309-317 | after a submission of non-blank text, every shown entry has text, user entries are not blank, and the user entries are exactly the texts request threads were started with, in order |
| Session.ReplyKeepsShownHistory | main.py:334-336 | showing a non-empty reply keeps that agreement |
| Session.FinishKeepsShownHistory | main.py:293-296 | a thread finishing keeps that agreement |
| Session.NextInput | main.py:303-327 | only Tab toggles activation; while inactive every other event leaves the input state alone; Return with blank input changes nothing; a submission clears both buffers; text input appends and clears the composition; backspace drops the last character; composition text replaces the preview; Tab touches neither buffer; quit, escape and other keys or events change nothing |
| Session.SessionLoop.constructor | main.py:285-291 | fresh animation, memory over the stored table, inactive panel, client over that memory; running, no reply, no thread |
| Session.SessionLoop.Submit | main.py:309-317 | with `strip()` non-empty: one thread started and one user entry shown, both with the untrimmed input; both buffers cleared. Otherwise nothing changes |
| Session.SessionLoop.HandleEvent | main.py:303-327 | the loop stops on quit or escape; the input state changes as `NextInput` says; a thread is started and a user entry shown exactly on a submission |
| Session.SessionLoop.HandleKey | main.py:306-322 | the KEYDOWN branch: the same facts for one key |
| Session.SessionLoop.CompleteWorker | main.py:293-296 | the thread's `send_request` result becomes the pending reply, overwriting any not yet shown, and the thread is no longer alive. Ok: the cache gains the thread's text as a user message, then the reply; exactly those two writes are queued; no row is written. Err: the pending reply is the error text and memory is unchanged |
| Session.SessionLoop.StorageStep | main.py:237-246 | one turn of the storage worker, as `ProcessNext` says |
| Session.SessionLoop.DrainReply | main.py:334-336 | a pending non-empty reply is shown once as an assistant entry and cleared, provided no thread was started or the last one has finished; otherwise nothing changes |
| Session.SessionLoop.Tick | main.py:299-336 | one frame handles all events in order, then updates the animation, the cursor and the reply drain; the loop keeps running exactly when no event was a quit or an escape |
| Session.TypeHello | main.py:320-327 | Tab then typing "hello" activates the panel with "hello" in the buffer and nothing shown |
| Session.SubmitHello | main.py:309-317 | Return on "hello" shows it as a user entry, starts one thread with it and clears both buffers |
| Session.ReplyArrives | main.py:293-296 | the thread finishing with a non-empty reply, followed by a drain, shows exactly that reply and submits the exchange to storage |
| Session.FinishHello | main.py:334-336 | a drain before the thread finishes shows nothing; a storage drain then leaves the table with the user message followed by the reply |
| Session.HelloScenario | main.py:303-336 | on a fresh session with an empty table, Tab, typing "hello", Return and a successful reply end with exactly the user entry then the assistant entry shown, and the table holding the user message then the reply |

## Left out

- Rendering is not modelled: surfaces, blits, fonts, colours, the 30-pixel line stacking and the panel layout. That includes showing the last five history entries and the input field text of buffer, composition and cursor glyph. These are graphics side effects; the wrap keeps only the partition into lines.
- Frame image loading and scaling, and icon, window and IME setup, are not modelled. They are asset and device I/O; a frame is identified by its asset name.
- SQLite is an in-memory sequence of rows in `id` order. The connection, the table creation, the SQL text and the timestamp column are not modelled. The table left by earlier runs is a constructor parameter.
- Concurrency is not modelled. A request thread's `send_request` runs atomically in `CompleteWorker`. The storage worker's blocking `Queue.get` is one `StorageStep` per call, or `ProcessQueue` to drain everything. Interleavings inside a call are not captured, such as a `get_context` that runs while the storage worker is mid-insert.
- The HTTP call, the API key, the headers and the JSON decoding are a function parameter `post` from payload to `Ok(reply)` or `Err(error)`. The exception's text is the `Err` string.
- The `temperature` float of the payload is not modelled. The clock readings (`get_ticks`, `clock.tick`) are parameters.
- The first `MemorySystem` class is not modelled, because the second definition shadows it. Its `context[-n:]` slice (where `n == 0` returns everything) is never reached.
- `animation_speed` is stored but never used. There is no method that switches the animation state, so no index clamping is modelled.
- Session.SessionLoop.Tick: states loop termination and validity, not the composed effect of all events on the panel, because `HandleEvent` states each event's effect.
- The reply drain waits only on the last started thread, as the code does. A reply from an earlier thread that finishes late can overwrite a reply already pending; the model shows this in `CompleteWorker`, but nothing is proved about which reply is shown.
- An empty-string reply is never shown and stays pending, because the drain tests the reply's truthiness. The model keeps this (`HasReply`).
- A `get_context` issued before the storage worker has written the previous exchange misses it. The model shows this (`SendRequest` writes no row), but no lemma is stated about the lag.
