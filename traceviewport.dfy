/**
 * The logging of the viewport tracing render engine
 * (scripts/re_trace_viewport.py): a main log kept as a queue of at most
 * `MAIN_LOG_SIZE` lines, where a full queue drops its oldest line before it
 * takes a new one, and two per-call logs that `view_update` and `view_draw`
 * clear and refill. `log_image` draws the three logs into an image; to walk
 * the main queue it drains it into a new queue, which then takes its place.
 *
 * The clock is not modelled: each log line's time stamp, `'%.6f'` of the
 * seconds since start, comes in already formatted. The arguments come in as
 * their `str` text. Drawing (fonts, positions, pixels) and the lines made
 * from Blender's scene and view data are not modelled.
 */
module TraceViewport {
  import Text

  const MAIN_LOG_SIZE: nat := 25

  /** The rule `'-' * 40` the view logs start and end their headers with. */
  const RULE: string := seq(40, _ => '-')

  /** `' '.join(parts)`. */
  function Join(parts: seq<string>): (r: string)
    ensures parts == [] ==> r == ""
    ensures |parts| == 1 ==> r == parts[0]
  {
    if parts == [] then ""
    else if |parts| == 1 then parts[0]
    else Join(parts[..|parts| - 1]) + " " + parts[|parts| - 1]
  }

  /** A log line: the stamp, ` | ` and the joined arguments; the empty line when there are none. */
  function Message(stamp: string, args: seq<string>): (msg: string)
    ensures args == [] <==> msg == ""
    ensures args != [] ==> msg == stamp + " | " + Join(args)
  {
    if args == [] then "" else stamp + " | " + Join(args)
  }

  /** The main queue after `put`, with the oldest line dropped first when it is full. */
  function Pushed(queue: seq<string>, msg: string): (r: seq<string>)
    requires |queue| <= MAIN_LOG_SIZE
    ensures |r| <= MAIN_LOG_SIZE && |r| > 0 && r[|r| - 1] == msg
    ensures |r| == if |queue| == MAIN_LOG_SIZE then MAIN_LOG_SIZE else |queue| + 1
    ensures r[..|r| - 1] == if |queue| == MAIN_LOG_SIZE then queue[1..] else queue
  {
    if |queue| == MAIN_LOG_SIZE then queue[1..] + [msg] else queue + [msg]
  }

  /** The last `n` lines of `lines` (all of them when there are fewer). */
  function Last(lines: seq<string>, n: nat): (r: seq<string>)
    ensures |r| == if |lines| <= n then |lines| else n
  {
    if |lines| <= n then lines else lines[|lines| - n..]
  }

  /** The main queue after lines `lines` were logged, in order, starting from an empty queue. */
  function Logged(lines: seq<string>): (r: seq<string>)
    ensures |r| <= MAIN_LOG_SIZE
  {
    if lines == [] then [] else Pushed(Logged(lines[..|lines| - 1]), lines[|lines| - 1])
  }

  /** The main queue always holds the most recent lines, at most `MAIN_LOG_SIZE` of them, oldest first. */
  lemma {:induction false} LoggedIsLast(lines: seq<string>)
    ensures Logged(lines) == Last(lines, MAIN_LOG_SIZE)
  {
    if lines != [] {
      var init, x := lines[..|lines| - 1], lines[|lines| - 1];
      assert lines == init + [x];
      LoggedIsLast(init);
      var n := |init|;
      if n >= MAIN_LOG_SIZE {
        var w := init[n - MAIN_LOG_SIZE..];
        assert w[1..] == init[n - MAIN_LOG_SIZE + 1..];
        assert lines[n + 1 - MAIN_LOG_SIZE..] == init[n - MAIN_LOG_SIZE + 1..] + [x];
      }
    }
  }

  /** The state of the render engine the logging touches. */
  class Engine {
    /** The main queue, oldest line first. */
    var mainLog: seq<string>
    var viewUpdateLog: seq<string>
    var viewDrawLog: seq<string>
    var renderCount: nat
    var drawCount: nat
    var updateCount: nat

    ghost predicate Valid()
      reads this
    {
      |mainLog| <= MAIN_LOG_SIZE
    }

    /** `__init__`: empty logs and zero counters. */
    constructor ()
      ensures Valid()
      ensures mainLog == [] && viewUpdateLog == [] && viewDrawLog == []
      ensures renderCount == 0 && drawCount == 0 && updateCount == 0
    {
      mainLog, viewUpdateLog, viewDrawLog := [], [], [];
      renderCount, drawCount, updateCount := 0, 0, 0;
    }

    method ClearLogViewUpdate()
      modifies this
      ensures viewUpdateLog == []
      ensures mainLog == old(mainLog) && viewDrawLog == old(viewDrawLog)
      ensures renderCount == old(renderCount) && drawCount == old(drawCount) && updateCount == old(updateCount)
    {
      viewUpdateLog := [];
    }

    method ClearLogViewDraw()
      modifies this
      ensures viewDrawLog == []
      ensures mainLog == old(mainLog) && viewUpdateLog == old(viewUpdateLog)
      ensures renderCount == old(renderCount) && drawCount == old(drawCount) && updateCount == old(updateCount)
    {
      viewDrawLog := [];
    }

    /** `log_main`: puts the line on the main queue, dropping the oldest line first when the queue is full. */
    method LogMain(stamp: string, args: seq<string>)
      requires Valid()
      modifies this
      ensures Valid()
      ensures mainLog == Pushed(old(mainLog), Message(stamp, args))
      ensures viewUpdateLog == old(viewUpdateLog) && viewDrawLog == old(viewDrawLog)
      ensures renderCount == old(renderCount) && drawCount == old(drawCount) && updateCount == old(updateCount)
    {
      var msg := Message(stamp, args);
      if |mainLog| == MAIN_LOG_SIZE {
        mainLog := mainLog[1..];
      }
      mainLog := mainLog + [msg];
    }

    method LogViewUpdate(stamp: string, args: seq<string>)
      modifies this
      ensures viewUpdateLog == old(viewUpdateLog) + [Message(stamp, args)]
      ensures mainLog == old(mainLog) && viewDrawLog == old(viewDrawLog)
      ensures renderCount == old(renderCount) && drawCount == old(drawCount) && updateCount == old(updateCount)
    {
      viewUpdateLog := viewUpdateLog + [Message(stamp, args)];
    }

    method LogViewDraw(stamp: string, args: seq<string>)
      modifies this
      ensures viewDrawLog == old(viewDrawLog) + [Message(stamp, args)]
      ensures mainLog == old(mainLog) && viewUpdateLog == old(viewUpdateLog)
      ensures renderCount == old(renderCount) && drawCount == old(drawCount) && updateCount == old(updateCount)
    {
      viewDrawLog := viewDrawLog + [Message(stamp, args)];
    }

    /**
     * `log_image` without the drawing: the lines it draws, in order, are the
     * main queue's, then the view-update log's, then the view-draw log's. The
     * main queue is drained into a new queue that then replaces it, so it
     * ends as it was.
     */
    method LogImage() returns (drawn: seq<string>)
      requires Valid()
      modifies this
      ensures Valid()
      ensures drawn == old(mainLog) + viewUpdateLog + viewDrawLog
      ensures mainLog == old(mainLog) && viewUpdateLog == old(viewUpdateLog) && viewDrawLog == old(viewDrawLog)
      ensures renderCount == old(renderCount) && drawCount == old(drawCount) && updateCount == old(updateCount)
    {
      var t: seq<string> := [];
      drawn := [];
      while mainLog != []
        invariant t + mainLog == old(mainLog)
        invariant drawn == t
        invariant viewUpdateLog == old(viewUpdateLog) && viewDrawLog == old(viewDrawLog)
        invariant renderCount == old(renderCount) && drawCount == old(drawCount) && updateCount == old(updateCount)
        decreases |mainLog|
      {
        var line := mainLog[0];
        mainLog := mainLog[1..];
        drawn := drawn + [line];
        t := t + [line];
      }
      mainLog := t;
      drawn := drawn + viewUpdateLog + viewDrawLog;
    }

    /**
     * The start of `view_update`: the view-update log is cleared, the update
     * counter goes up, the main log records the update's number and the
     * view-update log gets its header. `stamps` are the four calls' times.
     */
    method BeginViewUpdate(stamps: seq<string>)
      requires Valid() && |stamps| == 4
      modifies this
      ensures Valid()
      ensures updateCount == old(updateCount) + 1
      ensures mainLog == Pushed(old(mainLog), Message(stamps[0], ["view_update #" + Text.NatToString(updateCount)]))
      ensures viewUpdateLog == [Message(stamps[1], [RULE]),
                                Message(stamps[2], ["view_update #" + Text.NatToString(updateCount)]),
                                Message(stamps[3], [RULE])]
      ensures viewDrawLog == old(viewDrawLog) && drawCount == old(drawCount) && renderCount == old(renderCount)
    {
      ClearLogViewUpdate();
      updateCount := updateCount + 1;
      var title := "view_update #" + Text.NatToString(updateCount);
      LogMain(stamps[0], [title]);
      LogViewUpdate(stamps[1], [RULE]);
      LogViewUpdate(stamps[2], [title]);
      LogViewUpdate(stamps[3], [RULE]);
    }

    /** The start of `view_draw`, in the same way for the view-draw log and the draw counter. */
    method BeginViewDraw(stamps: seq<string>)
      requires Valid() && |stamps| == 4
      modifies this
      ensures Valid()
      ensures drawCount == old(drawCount) + 1
      ensures mainLog == Pushed(old(mainLog), Message(stamps[0], ["view_draw #" + Text.NatToString(drawCount)]))
      ensures viewDrawLog == [Message(stamps[1], [RULE]),
                              Message(stamps[2], ["view_draw #" + Text.NatToString(drawCount)]),
                              Message(stamps[3], [RULE])]
      ensures viewUpdateLog == old(viewUpdateLog) && updateCount == old(updateCount) && renderCount == old(renderCount)
    {
      ClearLogViewDraw();
      drawCount := drawCount + 1;
      var title := "view_draw #" + Text.NatToString(drawCount);
      LogMain(stamps[0], [title]);
      LogViewDraw(stamps[1], [RULE]);
      LogViewDraw(stamps[2], [title]);
      LogViewDraw(stamps[3], [RULE]);
    }
  }
}
