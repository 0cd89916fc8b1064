/**
 The connection manager of internal/reconnect/reconnect.go.

 `Reconnector` holds the fields that the source keeps under its lock. `State` is the whole
 protocol as a step system: one step per lock-protected section, channel operation or callback
 return, with the manager goroutine, the dial goroutines, the watches and the callers of
 Reconnect interleaved freely.
 */
module Reconnect {
  import opened Prelude

  /** Connection parameters; only equality is ever used. */
  type Settings = int

  /** A connection: the number of the dial that made it and the parameters it was dialed with. */
  datatype Conn = Conn(id: nat, snapshot: Settings)

  /** What a buffered error carries: who sent it, and to which generation's channel. */
  datatype Report =
    | FromWatch(gen: nat)
    | FromCall(call: nat, gen: nat)

  // ---------- the fields kept under the lock ----------

  /** The current connection and, per generation, the one-slot buffer of its error channel. */
  datatype Shared = Shared(current: Option<Conn>, channels: map<nat, Option<Report>>)

  function Published(sh: Shared, conn: Conn): Shared {
    Shared(Some(conn), sh.channels[conn.id := None])
  }

  function Cleared(sh: Shared): Shared {
    sh.(current := None)
  }

  /** A non-blocking send: a full buffer keeps what it has. */
  function Sent(sh: Shared, report: Report): Shared
    requires report.gen in sh.channels
  {
    if sh.channels[report.gen].None? then sh.(channels := sh.channels[report.gen := Some(report)]) else sh
  }

  function Received(sh: Shared, gen: nat): Shared {
    sh.(channels := sh.channels[gen := None])
  }

  class ErrChannel {
    const gen: nat
    var slot: Option<Report>

    constructor (gen: nat)
      ensures this.gen == gen && slot == None
    {
      this.gen := gen;
      slot := None;
    }
  }

  class Reconnector {
    var current: Option<Conn>
    var hasConn: bool
    var errChannel: ErrChannel?
    ghost var made: map<nat, ErrChannel>  // every generation's channel, also of generations gone by

    ghost predicate Valid()
      reads this
    {
      && hasConn == current.Some?
      && (errChannel != null <==> hasConn)
      && (forall g <- made :: made[g].gen == g)
      && (errChannel != null ==>
          errChannel.gen == current.value.id && errChannel.gen in made && made[errChannel.gen] == errChannel)
    }

    ghost function View(): Shared
      reads this, made.Values
    {
      Shared(current, map g | g in made :: made[g].slot)
    }

    constructor ()
      ensures Valid() && View() == Shared(None, map[])
    {
      current := None;
      hasConn := false;
      errChannel := null;
      made := map[];
    }

    /** The publishing section of managerLoop: connection and a fresh channel, together. */
    method Publish(conn: Conn)
      requires Valid() && conn.id !in made
      modifies this
      ensures Valid() && View() == Published(old(View()), conn)
      ensures fresh(errChannel)
    {
      var channel := new ErrChannel(conn.id);
      current := Some(conn);
      hasConn := true;
      errChannel := channel;
      made := made[conn.id := channel];
    }

    /** The locked section of drop: hands back the connection to close. */
    method Clear() returns (dropped: Option<Conn>)
      requires Valid()
      modifies this
      ensures Valid() && View() == Cleared(old(View())) && dropped == old(current)
    {
      if !hasConn {
        return None;
      }
      dropped := current;
      current := None;
      hasConn := false;
      errChannel := null;
    }

    method CurrentConn() returns (conn: Option<Conn>)
      requires Valid()
      ensures conn == View().current
    {
      conn := current;
    }

    /** The locked section of Reconnect. */
    method ReadErrChannel() returns (channel: ErrChannel?)
      requires Valid()
      ensures channel == null <==> View().current == None
      ensures channel != null ==> channel.gen == View().current.value.id && channel in made.Values
    {
      channel := errChannel;
    }

    /** The send that ends Reconnect and Watch. */
    method TrySend(channel: ErrChannel, report: Report)
      requires Valid() && channel in made.Values && report.gen == channel.gen
      modifies channel
      ensures Valid() && View() == Sent(old(View()), report)
    {
      if channel.slot.None? {
        channel.slot := Some(report);
      }
    }

    /** The receiving branch of managerLoop's last select. */
    method Receive() returns (report: Report)
      requires Valid() && errChannel != null && errChannel.slot.Some?
      modifies errChannel
      ensures Valid() && Some(report) == old(View()).channels[errChannel.gen]
      ensures View() == Received(old(View()), errChannel.gen)
    {
      report := errChannel.slot.value;
      errChannel.slot := None;
    }

    /** Reconnect when nothing interleaves: it fills the current generation's channel or none. */
    method Reconnect(call: nat)
      requires Valid()
      modifies made.Values
      ensures Valid()
      ensures old(View()).current == None ==> View() == old(View())
      ensures old(View()).current.Some? ==>
                var gen := old(View()).current.value.id;
                View() == Sent(old(View()), FromCall(call, gen))
    {
      var channel := ReadErrChannel();
      if channel != null {
        TrySend(channel, FromCall(call, channel.gen));
      }
    }
  }
}
