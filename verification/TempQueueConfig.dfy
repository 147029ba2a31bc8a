/** How the bridge's start-up settles the settings of the temporary queues (bridge/bridgesvc.c). */
module TempQueueConfig {
  import opened Common
  import opened TempQueue

  const DEFAULT_QUEUE_SIZE := 100
  const DEFAULT_QUEUE_MAXSLEEP := 150
  const DEFAULT_QUEUE_MINSLEEP := 40

  /** The options as given; zero, -1 or nothing where one was left out. */
  datatype Options = Options(qsize: int, msgMax: Option<int>, qsizesvc: int, qretries: int, qttl: int,
                             qminsleep: int, qmaxsleep: int, action: int, timeout: int)

  /** The total limit that the options lead to. */
  function SizeLimit(o: Options): (n: int)
    ensures n >= 1
  {
    if o.qsize > 0 then o.qsize
    else if o.msgMax.Some? && o.msgMax.value > 0 then o.msgMax.value
    else DEFAULT_QUEUE_SIZE
  }

  /**
   Start-up refuses exactly a service limit above the total limit and an unknown action;
   whatever it accepts meets what the queues need.
   */
  method Settle(o: Options) returns (r: Option<Config>)
    ensures r.None? <==> o.qsizesvc > SizeLimit(o) || o.action !in {-1, 1, 2, 3}
    ensures r.Some? ==> ConfigOk(r.value)
    ensures r.Some? ==> r.value.qsize == SizeLimit(o)
    ensures r.Some? ==> r.value.qsizesvc == if o.qsizesvc > 0 then o.qsizesvc else Max(1, SizeLimit(o) / 2)
    ensures r.Some? ==> (r.value.qfull == Drop <==> o.action == 3) && (r.value.qfullsvc == Drop <==> o.action in {2, 3})
    ensures r.Some? ==> r.value.qretries == o.qretries
    ensures r.Some? ==> r.value.qttl == if o.qttl < 0 then o.timeout * 1000 else o.qttl
    ensures r.Some? && o.qminsleep > 0 ==> r.value.qminsleep == o.qminsleep
    ensures r.Some? && o.qmaxsleep > 0 ==> r.value.qmaxsleep == o.qmaxsleep
    ensures r.Some? && o.qminsleep <= 0 ==> r.value.qminsleep == DEFAULT_QUEUE_MINSLEEP
    ensures r.Some? && o.qmaxsleep <= 0 ==> r.value.qmaxsleep == DEFAULT_QUEUE_MAXSLEEP
    ensures r.Some? && o.qminsleep <= 0 && o.qmaxsleep <= 0 ==> r.value.qminsleep <= r.value.qmaxsleep
  {
    var qsize, qsizesvc := o.qsize, o.qsizesvc;
    if qsize <= 0 && o.msgMax.Some? {
      qsize := o.msgMax.value;
    }
    if qsize <= 0 {
      qsize := DEFAULT_QUEUE_SIZE;
    }
    if qsizesvc <= 0 {
      qsizesvc := qsize / 2;
      if qsizesvc < 1 {
        qsizesvc := 1;
      }
    }
    if qsize < qsizesvc {
      return None;
    }
    var qmaxsleep := if o.qmaxsleep <= 0 then DEFAULT_QUEUE_MAXSLEEP else o.qmaxsleep;
    var qminsleep := if o.qminsleep <= 0 then DEFAULT_QUEUE_MINSLEEP else o.qminsleep;
    var qttl := if o.qttl < 0 then o.timeout * 1000 else o.qttl;
    var full, fullsvc;
    if o.action == -1 || o.action == 1 {
      full, fullsvc := Block, Ignore;
    } else if o.action == 2 {
      full, fullsvc := Block, Drop;
    } else if o.action == 3 {
      full, fullsvc := Drop, Drop;
    } else {
      return None;
    }
    return Some(Config(qsize, qsizesvc, full, fullsvc, o.qretries, qttl, qminsleep, qmaxsleep));
  }
}
