/** What the app asks of its surroundings, recorded as an ordered log:
    notification sequences sent to the notification service, sleeps of the
    calling thread, and redraw requests to the view port. */
module Signals {

  /** The notes of the closing melody (`message_note_e4` and so on). */
  datatype Pitch = E4 | C4 | G3 | A3

  /** One message inside a custom notification sequence. */
  datatype Message = Note(pitch: Pitch) | Pause(ms: nat)

  /** A notification sequence passed to `notification_message`: the firmware's
      predefined ones by name, or one the app builds itself. */
  datatype Notification =
    | BlinkStartRed
    | BlinkStartGreen
    | BlinkStop
    | Success
    | Error
    | Custom(messages: seq<Message>)

  /** One observable action of the app, in the order it happens. */
  datatype Event =
    | Notify(n: Notification)  // notification_message(...)
    | Sleep(ms: nat)           // furi_delay_ms(...)
    | Redraw                   // view_port_update(...)

  /** The sequence `generate_sounds` builds on the stack: four notes
      separated by half-second pauses. */
  function Melody(): seq<Message> {
    [Note(E4), Pause(500), Note(C4), Pause(500), Note(G3), Pause(500), Note(A3)]
  }

  /** Everything `generate_sounds` does, in order. */
  function GenerateSounds(): seq<Event> {
    [Notify(Success), Sleep(1000), Notify(Error), Sleep(1000), Notify(Custom(Melody()))]
  }

  /** What `main` does once the loop is over and the final redraw is
      requested: green light, the sounds, a second's wait, lights off. */
  function TerminalSequence(): seq<Event> {
    [Notify(BlinkStartGreen)] + GenerateSounds() + [Sleep(1000), Notify(BlinkStop)]
  }
}
