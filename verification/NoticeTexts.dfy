/** From the bytes of a telegram to the text that IRC is sent (internal/decoder/decoder.go,
    internal/eewmsg/format.go, internal/irc/dispatcher.go, internal/irc/queue.go,
    internal/irc/connection.go). */
module NoticeTexts {
  import opened Decoder
  import opened Messages
  import opened MessageTexts
  import opened Queues
  import opened Dispatchers
  import opened Connections

  /** What befalls a connection in the daemon: the bytes of a telegram arrive, the writer fetches the next
      notice, Run ends. */
  datatype Step = Received(raw: string) | Fetched | Stopped

  /** Notify is told of the decoded telegram with its Slack message. */
  function CallOf(t: Tables, s: Step): Call {
    match s
    case Received(raw) => Told(Decoded(t, raw), FormattedText(Decoded(t, raw)))
    case Fetched => Asked
    case Stopped => Ended
  }

  function CallsOf(t: Tables, steps: seq<Step>): (calls: seq<Call>)
    ensures |calls| == |steps| && forall i :: 0 <= i < |steps| ==> calls[i] == CallOf(t, steps[i])
  {
    seq(|steps|, i requires 0 <= i < |steps| => CallOf(t, steps[i]))
  }

  /** The notice says what the telegram says, and nothing of the link's markup is left in it. */
  predicate Conveys(all: seq<string>, limited: seq<string>, n: Notice, f: Fields) {
    && n.eqID == f.report.eqID
    && n.priority == (if f.header.msgTypeCode == 10 then Cancellation
                      else if f.report.ncnType > 0 then Final
                      else Normal)
    && (n.channels == Unique(all + limited) || (n.priority == Normal && n.channels == Unique(all)))
    && f.hypocenter.lat >= 0 && f.hypocenter.lng >= 0
    && Reads(n.text, f, "N" + OneDecimal(f.hypocenter.lat) + "/E" + OneDecimal(f.hypocenter.lng))
    && n.text == Around(f, Label(f.hypocenter))
    && '<' !in n.text && '|' !in n.text && '>' !in n.text && StripLinks(n.text) == n.text
  }

  ghost predicate Conveyed(t: Tables, steps: seq<Step>, all: seq<string>, limited: seq<string>, n: Notice) {
    exists i :: 0 <= i < |steps| && steps[i].Received? && Conveys(all, limited, n, Decoded(t, steps[i].raw))
  }

  lemma ToldConveys(t: Tables, steps: seq<Step>, all: seq<string>, limited: seq<string>, i: nat, n: Notice)
    requires CleanTable(t.epicenter) && CleanTable(t.shindo)
    requires i < |steps| && Tells(all, limited, CallsOf(t, steps), i, n)
    ensures steps[i].Received? && Conveys(all, limited, n, Decoded(t, steps[i].raw))
  {
    hide Decoded, FormattedText, Reads, StripLinks, CleanTable, Around, Unique, Telegrams, LastEqID, Label, OneDecimal,
      CallsOf;
    assert CallsOf(t, steps)[i] == CallOf(t, steps[i]);
    StripOfFormat(t, steps[i].raw);
    IrcTextReads(t, steps[i].raw);
  }

  lemma FoundedIsConveyed(t: Tables, steps: seq<Step>, all: seq<string>, limited: seq<string>, n: Notice)
    requires CleanTable(t.epicenter) && CleanTable(t.shindo) && Founded(all, limited, CallsOf(t, steps), n)
    ensures Conveyed(t, steps, all, limited, n)
  {
    hide Conveys, CleanTable, Tells, Proper, CallsOf, CallOf;
    var i :| 0 <= i < |CallsOf(t, steps)| && Tells(all, limited, CallsOf(t, steps), i, n);
    ToldConveys(t, steps, all, limited, i, n);
  }

  /** Whatever telegrams arrive and however they are queued, replaced, evicted and delivered: every
      notice pending, delivered or evicted says what one of the telegrams says, with its eq_id and
      priority, in a text without links. */
  lemma NoticesConveyTelegrams(t: Tables, steps: seq<Step>, all: seq<string>, limited: seq<string>)
    requires CleanTable(t.epicenter) && CleanTable(t.shindo)
    ensures
      var h := Run(32, OpsOf(all, limited, CallsOf(t, steps)));
      && (forall i :: 0 <= i < |h.pending| ==> Conveyed(t, steps, all, limited, h.pending[i].notice))
      && (forall i :: 0 <= i < |h.delivered| ==> Conveyed(t, steps, all, limited, h.delivered[i].slot.notice))
      && (forall i :: 0 <= i < |h.evicted| ==> Conveyed(t, steps, all, limited, h.evicted[i].slot.notice))
  {
    hide Conveyed, Founded, Run, OpsOf, CleanTable, CallsOf;
    NoticesAreProper(all, limited, CallsOf(t, steps));
    forall n | Founded(all, limited, CallsOf(t, steps), n)
      ensures Conveyed(t, steps, all, limited, n)
    {
      FoundedIsConveyed(t, steps, all, limited, n);
    }
  }
}
