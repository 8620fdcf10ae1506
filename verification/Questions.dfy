/** The nonce-bound question store of examples/askafriend-demo: one map, loaded and stored back by every call. */
module Questions {
  import opened Wrappers
  import opened Checkpoint

  type Nonce = string

  datatype Question = Question(id: Nonce, key: Key, runID: string, prompt: string, askedAt: Time)
  datatype Answer = Answer(questionID: Nonce, text: Bytes, answeredAt: Time)
  datatype Doc = Doc(question: Question, answer: Option<Answer>)
  type Docs = map<Key, Doc>

  function AskIn(d: Docs, key: Key, q: Question): Docs {
    d[key := Doc(q, None)]
  }

  /** The reply to the pending question; a reply bound to another nonce is stale and stays hidden. */
  function AnswerIn(d: Docs, key: Key): Option<Answer> {
    if key in d && d[key].answer.Some? && d[key].answer.value.questionID == d[key].question.id
    then d[key].answer else None
  }

  function PendingIn(d: Docs, key: Key): Option<Nonce> {
    if key in d then Some(d[key].question.id) else None
  }

  function ConsumeIn(d: Docs, key: Key, id: Nonce): Docs {
    if key in d && d[key].question.id == id then d - {key} else d
  }

  /** A reply arrives; a transport may deliver one that is bound to an older nonce. */
  function ReplyIn(d: Docs, key: Key, a: Answer): Docs {
    if key in d then d[key := d[key].(answer := Some(a))] else d
  }

  class FileQuestions {
    var file: Docs

    constructor ()
      ensures file == map[]
    {
      file := map[];
    }

    method Ask(key: Key, q: Question)
      modifies this
      ensures file == AskIn(old(file), key, q)
      ensures file.Keys == old(file).Keys + {key} && file[key].question == q && file[key].answer.None?
      ensures forall k :: k in old(file) && k != key ==> file[k] == old(file)[k]
    {
      var m := file;
      m := m[key := Doc(q, None)];
      file := m;
    }

    method Pending(key: Key) returns (q: Option<Question>)
      ensures PendingIn(file, key) == if q.Some? then Some(q.value.id) else None
      ensures (q.Some? <==> key in file) && (q.Some? ==> q.value == file[key].question)
    {
      var m := file;
      if key !in m {
        return None;
      }
      return Some(m[key].question);
    }

    method GetAnswer(key: Key) returns (a: Option<Answer>)
      ensures a == AnswerIn(file, key)
      ensures a.Some? <==>
                key in file && file[key].answer.Some? && file[key].answer.value.questionID == file[key].question.id
      ensures a.Some? ==> a == file[key].answer
    {
      var m := file;
      if key !in m || m[key].answer.None? {
        return None;
      }
      if m[key].answer.value.questionID != m[key].question.id {
        return None;
      }
      return m[key].answer;
    }

    method Consume(key: Key, id: Nonce)
      modifies this
      ensures file == ConsumeIn(old(file), key, id)
      ensures file == if key in old(file) && old(file)[key].question.id == id then old(file) - {key} else old(file)
      ensures AnswerIn(old(file), key).Some? && AnswerIn(old(file), key).value.questionID == id
              ==> AnswerIn(file, key).None?
    {
      var m := file;
      if key !in m || m[key].question.id != id {
        return;
      }
      m := m - {key};
      file := m;
    }

    /** Binds the friend's text to the nonce that is pending, so Answer shows it at once. */
    method Provide(key: Key, text: Bytes, now: Time) returns (asked: bool)
      modifies this
      ensures asked <==> key in old(file)
      ensures !asked ==> file == old(file)
      ensures asked ==> file == ReplyIn(old(file), key, Answer(old(file)[key].question.id, text, now))
                        && AnswerIn(file, key) == file[key].answer
    {
      var m := file;
      if key !in m {
        return false;
      }
      var doc := m[key];
      doc := doc.(answer := Some(Answer(doc.question.id, text, now)));
      m := m[key := doc];
      file := m;
      return true;
    }
  }
}
