/** The running transcript: two hash contexts until one is selected. */
module TranscriptHash {
  import opened Bytes
  import opened Symbols

  /** A context is the items fed to it; a dropped context is gone for good. */
  class Running {
    var sha256: Option<seq<Item>>
    var sha384: Option<seq<Item>>

    /** At least one context runs, and both have seen the same items. */
    ghost predicate Valid()
      reads this
    {
      (sha256.Some? || sha384.Some?) && (sha256.Some? && sha384.Some? ==> sha256 == sha384)
    }

    ghost function View(): Transcript
      requires Valid()
      reads this
    {
      if sha256.Some? && sha384.Some? then Transcript(None, sha256.value)
      else if sha256.Some? then Transcript(Some(Sha256), sha256.value)
      else Transcript(Some(Sha384), sha384.value)
    }

    constructor ()
      ensures Valid() && View() == EMPTY
    {
      sha256, sha384 := Some([]), Some([]);
    }

    /** `restart_with_message_hash`, which overwrites the transcript: only the chosen context runs. */
    method Restart(alg: Alg, h: Digest)
      modifies this
      ensures Valid() && View() == Restarted(alg, h)
    {
      sha256 := if alg.Sha256? then Some([Item.Restart(h)]) else None;
      sha384 := if alg.Sha384? then Some([Item.Restart(h)]) else None;
    }

    /** `select`: repeating a choice is idempotent, changing it is an error that changes nothing. */
    method SelectHash(alg: Alg) returns (ok: bool)
      requires Valid()
      modifies this
      ensures Valid() && ok == Select(old(View()), alg).Some?
      ensures View() == if ok then Select(old(View()), alg).value else old(View())
    {
      if sha256.Some? && sha384.Some? {
        match alg {
          case Sha256 => sha384 := None;
          case Sha384 => sha256 := None;
        }
        return true;
      }
      return if sha256.Some? then alg.Sha256? else alg.Sha384?;
    }

    /** `update`: every context that runs sees the message. */
    method Update(m: Message)
      requires Valid()
      modifies this
      ensures Valid() && View() == Push(old(View()), m)
    {
      if sha256.Some? {
        sha256 := Some(sha256.value + [Whole(m)]);
      }
      if sha384.Some? {
        sha384 := Some(sha384.value + [Whole(m)]);
      }
    }

    /** `hash`: an error under an algorithm whose context was dropped. */
    method Finish(alg: Alg) returns (d: Option<Digest>)
      requires Valid()
      ensures d == Hash(View(), alg)
    {
      match alg {
        case Sha256 => d := if sha256.None? then None else Some(Digest(Sha256, sha256.value));
        case Sha384 => d := if sha384.None? then None else Some(Digest(Sha384, sha384.value));
      }
    }

    /** `fork`, `update` with a hello cut before its binders, `hash`: this transcript stays as it is. */
    method HashCut(h: Hello) returns (d: Option<Digest>)
      requires Valid()
      ensures d == BinderHash(View(), h)
    {
      d := if sha256.None? then None else Some(Digest(Sha256, sha256.value + [Cut(CutHello(h))]));
    }

    /** `update`, message after message. */
    method UpdateAll(ms: seq<Message>)
      requires Valid()
      modifies this
      ensures Valid() && View() == PushAll(old(View()), ms)
    {
      for i := 0 to |ms|
        invariant Valid() && PushAll(View(), ms[i..]) == PushAll(old(View()), ms)
      {
        assert ms[i..][1..] == ms[i + 1..];
        Update(ms[i]);
      }
    }
  }

  /** After a choice the transcript answers for that algorithm and for no other, however it grows. */
  lemma {:induction false} ChoiceIsFinal(t: Transcript, alg: Alg, ms: seq<Message>)
    requires Select(t, alg).Some?
    ensures var u := PushAll(Select(t, alg).value, ms);
            && Hash(u, alg).Some? && (forall other :: other != alg ==> Hash(u, other).None? && Select(u, other).None?)
            && Select(u, alg) == Some(u)
    decreases |ms|
  {
    if ms != [] {
      var s := Select(t, alg).value;
      assert Select(Push(s, ms[0]), alg).value == Push(s, ms[0]);
      ChoiceIsFinal(Push(s, ms[0]), alg, ms[1..]);
    }
  }
}
