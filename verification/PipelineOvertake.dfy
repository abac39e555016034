/**
 The converse of ordered transmission. With two consecutive downlink slots of equal slot number, the
 later tx_func can take the RU token meant for the earlier one: this module builds such a run for every
 configuration that has such a pair and a worker left for what is decoded in between, or in which the
 earlier one can be lost.
 */
module PipelineOvertake {
  import opened SlotPipeline
  import opened PipelineInvariant
  import opened PipelineSafety
  import opened PipelineDecoding
  import opened PipelineTheorems
  import opened PipelineRuns
  import opened PipelineCut

  /** For two consecutive downlink slots of equal slot number there is a run in which the later one is
      transmitted first, if what is decoded in between leaves a worker for it. */
  lemma Overtaking(c: Config, j: nat) returns (s: State)
    requires c.Valid() && c.workers >= 2 && c.num(Q(c, j)) == c.num(c.nextDl(Q(c, j)))
    requires c.workers >= 3 || NoneDecodes(c, Starter(c, j), Starter(c, j + 1))
    ensures Reachable(c, s) && !InSlotOrder(c, s.sent)
  {
    hide Config.Valid, Reachable, Q, Ready;
    QSucc(c, j);
    s := ParkedRun(c, j, j + 1);
    MissingSlot(c, s.sent, j);
  }

  // The starter of downlink slot j is received beside the tx_func of the slot before.
  lemma BesidePrevious(c: Config, j: nat, f: nat)
    requires c.Valid() && c.workers == 2 && Cuttable(c, Starter(c, j), f)
    ensures j > 0 && Beside(c, j - 1, Starter(c, j))
  {
    hide Config.Valid, Q, Config.Decodes;
    var i: nat :| RightBehind(c, i, Starter(c, j));
    if j <= i {
      StarterOrder(c, j, i);
      assert false;
    }
    StarterOrder(c, i + 1, j);
    if i + 1 < j {
      QIncreases(c, i + 1, j);
      assert false;
    }
  }

  // The TX job of slot j is lost, and the radio waits for it.
  lemma LosesTx(c: Config, j: nat, f: nat) returns (s: State)
    requires c.Valid() && c.workers == 2 && Cuttable(c, Starter(c, j), f) && LastOf(c.blocks(Starter(c, j)), f)
    ensures Reachable(c, s) && Ready(c, s) && s.clock == Starter(c, j) + 1 && s.running == map[] && |s.l1| == 1
    ensures s.ru == [c.num(Q(c, j))] && |s.sent| == j && SentExpected(c, s)
  {
    hide Config.Valid, Config.Decodes, Reachable, Q, Stamps;
    BesidePrevious(c, j, f);
    QIsDownlink(c, j);
    var n: nat := Starter(c, j);
    var s0, i, r := CutRun(c, j - 1, n, f);
    var s1 := FinishSlot(c, s0, j - 1, n, f, i, r);
    s := SendLast(c, s1, r);
    WholeAgain(c, s);
    SentOneMore(c, s1, s, j - 1);
  }

  /** Where the TX job of slot j can be lost, its successor of equal slot number takes its turn. */
  lemma LostAndOvertaken(c: Config, j: nat) returns (s: State)
    requires c.Valid() && c.workers == 2 && TxLost(c, j) && c.num(Q(c, j)) == c.num(c.nextDl(Q(c, j)))
    ensures Reachable(c, s) && !InSlotOrder(c, s.sent)
  {
    hide Config.Valid, Config.Decodes, Cuttable, LastOf, Reachable, Q, Stamps;
    var f: nat :| Cuttable(c, Starter(c, j), f) && LastOf(c.blocks(Starter(c, j)), f);
    QSucc(c, j);
    QIsDownlink(c, j + 1);
    QIncreasing(c, j);
    NoDownlinkBetween(c, j);
    var s0 := LosesTx(c, j, f);
    var s1 := PassUplink(c, s0, Q(c, j + 1) - Q(c, j) - 1);
    var s2 := ReceiveSlot(c, s1);
    s := TransmitSlot(c, s2);
    assert forall k :: 0 <= k < j ==> s.sent[k] == s0.sent[k];
    MissingSlot(c, s.sent, j);
  }

  lemma MissingSlot(c: Config, sent: seq<Transmission>, j: nat)
    requires c.Valid() && |sent| == j + 1 && sent[j].at == Q(c, j + 1)
    requires forall k :: 0 <= k < j ==> sent[k] == Expected(c, k)
    ensures !InSlotOrder(c, sent)
  {
    hide Config.Valid, Q;
    QIsDownlink(c, j);
    if InSlotOrder(c, sent) {
      var k :| 0 <= k < |sent| && sent[k].at == Q(c, j);
      if k < j {
        QIncreases(c, k, j);
      }
      assert false;
    }
  }

  /** Exactly when the pipeline keeps the order: with one worker always; with more if and only if any two
      consecutive downlink-capable slots differ in their slot number or, with two workers, have something
      to decode between them and the TX job of the first cannot be lost. */
  lemma OrderedExactlyWhenSafe(c: Config)
    requires c.Valid()
    ensures OrderSafe(c) <==> forall s :: Reachable(c, s) ==> InSlotOrder(c, s.sent)
  {
    if OrderSafe(c) {
      forall s | Reachable(c, s)
        ensures InSlotOrder(c, s.sent)
      {
        OrderedTransmission(c, s);
      }
    } else {
      var j: nat :| c.num(c.nextDl(Q(c, j))) == c.num(Q(c, j))
        && !(c.workers == 2 && !NoneDecodes(c, Starter(c, j), Starter(c, j + 1)) && !TxLost(c, j));
      if c.workers == 2 && TxLost(c, j) {
        var s := LostAndOvertaken(c, j);
      } else {
        var s := Overtaking(c, j);
      }
    }
  }
}
