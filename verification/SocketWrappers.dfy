/** Socket wrappers and their connection endpoint as objects, proved against the functions in
    `SocketBuffer`. */
module SocketWrappers {
  import S = SocketBuffer

  class SocketWrapper {
    const connectionEndpoint: ConnectionEndpoint
    var bufferedWrites: seq<string>
    var bufferedWritesTotalByteSize: nat
    var isClosed: bool
    var written: seq<string>
    var sent: seq<string>

    constructor (connectionEndpoint: ConnectionEndpoint)
      ensures this.connectionEndpoint == connectionEndpoint && Model() == S.FRESH
    {
      this.connectionEndpoint := connectionEndpoint;
      bufferedWrites, bufferedWritesTotalByteSize, isClosed, written, sent := [], 0, false, [], [];
    }

    function Model(): S.Socket
      reads this
    {
      S.Socket(bufferedWrites, bufferedWritesTotalByteSize, isClosed, written, sent)
    }

    method WriteMessage(message: string)
      modifies this`written
      ensures written == old(written) + [message]
    {
      written := written + [message];
    }

    method Flush()
      modifies this
      ensures Model() == S.Flush(old(Model()))
    {
      if bufferedWritesTotalByteSize != 0 {
        for i := 0 to |bufferedWrites|
          invariant 0 <= i <= |bufferedWrites|
          invariant Model() == old(Model()).(written := written)
          invariant written == old(written) + bufferedWrites[..i]
        {
          assert bufferedWrites[..i + 1] == bufferedWrites[..i] + [bufferedWrites[i]];
          WriteMessage(bufferedWrites[i]);
        }
        assert bufferedWrites[..|bufferedWrites|] == bufferedWrites;
        bufferedWritesTotalByteSize := 0;
        bufferedWrites := [];
      }
    }

    method SendBuiltMessage(message: string, buffer: bool)
      modifies this, connectionEndpoint
      ensures Model() == S.SendTo(connectionEndpoint.options, old(Model()), message, buffer)
      ensures var wants := S.Schedules(connectionEndpoint.options, old(Model()), message, buffer);
        && connectionEndpoint.scheduledSocketWrapperWrites ==
           old(connectionEndpoint.scheduledSocketWrapperWrites) + (if wants then {this} else {})
        && connectionEndpoint.flushTimeout == (old(connectionEndpoint.flushTimeout) || wants)
    {
      if isClosed {
        return;
      }
      sent := sent + [message];
      if connectionEndpoint.options.timeout == 0 {
        WriteMessage(message);
      } else if !buffer {
        Flush();
        WriteMessage(message);
      } else {
        bufferedWritesTotalByteSize := bufferedWritesTotalByteSize + |message|;
        bufferedWrites := bufferedWrites + [message];
        if bufferedWritesTotalByteSize > connectionEndpoint.options.maxSize {
          Flush();
        } else {
          connectionEndpoint.ScheduleFlush(this);
        }
      }
    }

    method Close()
      modifies this`isClosed
      ensures Model() == old(Model()).(isClosed := true)
    {
      isClosed := true;
    }
  }

  class ConnectionEndpoint {
    const options: S.Config
    var scheduledSocketWrapperWrites: set<SocketWrapper>
    var flushTimeout: bool

    constructor (options: S.Config)
      ensures this.options == options && scheduledSocketWrapperWrites == {} && !flushTimeout
    {
      this.options, scheduledSocketWrapperWrites, flushTimeout := options, {}, false;
    }

    method ScheduleFlush(socketWrapper: SocketWrapper)
      modifies this
      ensures scheduledSocketWrapperWrites == old(scheduledSocketWrapperWrites) + {socketWrapper} && flushTimeout
    {
      scheduledSocketWrapperWrites := scheduledSocketWrapperWrites + {socketWrapper};
      if !flushTimeout {
        flushTimeout := true;
      }
    }

    /** The flush timer fires. Sockets that are not scheduled are not touched. */
    method FlushSockets()
      requires flushTimeout
      modifies this, scheduledSocketWrapperWrites
      ensures scheduledSocketWrapperWrites == {} && !flushTimeout
      ensures forall w :: w in old(scheduledSocketWrapperWrites) ==> w.Model() == S.Flush(old(w.Model()))
    {
      var rest := scheduledSocketWrapperWrites;
      while rest != {}
        invariant rest <= scheduledSocketWrapperWrites == old(scheduledSocketWrapperWrites)
        invariant forall w :: w in old(scheduledSocketWrapperWrites) ==>
                    w.Model() == if w in rest then old(w.Model()) else S.Flush(old(w.Model()))
        decreases |rest|
      {
        var socketWrapper :| socketWrapper in rest;
        socketWrapper.Flush();
        rest := rest - {socketWrapper};
      }
      scheduledSocketWrapperWrites := {};
      flushTimeout := false;
    }

    method OnSocketClose(socketWrapper: SocketWrapper)
      modifies this, socketWrapper
      ensures scheduledSocketWrapperWrites == old(scheduledSocketWrapperWrites) - {socketWrapper} && flushTimeout == old(flushTimeout)
      ensures socketWrapper.Model() == old(socketWrapper.Model()).(isClosed := true)
    {
      scheduledSocketWrapperWrites := scheduledSocketWrapperWrites - {socketWrapper};
      socketWrapper.Close();
    }
  }
}
