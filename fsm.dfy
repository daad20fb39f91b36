/**
 * The per-user conversation state of the dispatcher's in-memory storage:
 * the current Form state and the data dictionary the handlers fill in.
 */
module Fsm {
  import opened Wrappers

  /**
   * The Form states, and `NoState` for "no state set". Form.topic is left
   * out: no handler ever enters it.
   */
  datatype FormState =
    | NoState
    | Section | Action
    | AddSection | AddTopic | FileType | FileUpload
    | DeleteSection | DeleteTopic | DeleteType

  /** The states of the upload and delete dialogues, which only privileged users may enter. */
  predicate PrivilegedState(s: FormState)
  {
    s in {AddSection, AddTopic, FileType, FileUpload, DeleteSection, DeleteTopic, DeleteType}
  }

  /** The keys the handlers store: "section", "topic" and "file_type". */
  datatype DataKey = SectionKey | TopicKey | FileTypeKey

  /** One user's FSM context. Values are message texts, which are `None` for a message without text. */
  class Context {
    const user: int
    var state: FormState
    var data: map<DataKey, Option<string>>

    constructor(user: int)
      ensures this.user == user && state == NoState && data == map[]
    {
      this.user := user;
      state := NoState;
      data := map[];
    }

    /** `state.clear()`: no state and an empty dictionary. */
    method Clear()
      modifies this
      ensures state == NoState && data == map[]
    {
      state := NoState;
      data := map[];
    }

    /** `state.set_state(s)`: the data stay. */
    method SetState(s: FormState)
      modifies this
      ensures state == s && data == old(data)
    {
      state := s;
    }

    /** `state.update_data(key=value)`: the state stays. */
    method UpdateData(key: DataKey, value: Option<string>)
      modifies this
      ensures state == old(state) && data == old(data)[key := value]
    {
      data := data[key := value];
    }

    /** `data.get(key)`: `None` when the key is absent. */
    function Get(key: DataKey): (v: Option<string>)
      reads this
      ensures key in data ==> v == data[key]
      ensures key !in data ==> v.None?
    {
      if key in data then data[key] else None
    }
  }
}
