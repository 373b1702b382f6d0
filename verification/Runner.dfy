/** The runners as objects that call their ports one after another, proved to do what the
    functions of `Pipeline` say. */
module Runner {
  import opened Outcomes
  import opened Dicts
  import opened Json
  import opened Security
  import opened Contracts
  import opened Readouts
  import opened Ports
  import opened Pipeline
  import Registry

  /** A runner and the log of every port call made through it. */
  class ServiceRunner {
    const env: Env
    var log: History

    constructor (env: Env)
      ensures this.env == env && log == []
    {
      this.env := env;
      log := [];
    }

    /** `authorize`'s loop over the URIs of the inputs, or of the outputs. */
    method AuthorizeUris(uris: seq<string>, identity: Identity) returns (out: Outcome<()>)
      modifies this
      ensures var s := Authorizing(env, old(log), uris, identity, 0); out == s.out && log == old(log) + s.seg
    {
      ghost var start, whole := log, Authorizing(env, log, uris, identity, 0);
      for i := 0 to |uris|
        invariant var rest := Authorizing(env, log, uris, identity, i);
                  whole.out == rest.out && start + whole.seg == log + rest.seg
      {
        var scheme := CheckScheme(env.allowed, uris[i], env.leaves.brackets);
        if !scheme.Ok? {
          return scheme;
        }
        var reply := env.ports.authorize(log, uris[i], identity);
        var event := DidAuthorize(uris[i], identity, reply);
        Extend(log, event, Authorizing(env, log + [event], uris, identity, i + 1).seg);
        log := log + [event];
        if !reply.Done? {
          return reply.Outcome();
        }
      }
      out := Ok(());
    }

    /** `_resolve_for_specs`. */
    method ResolveForSpecs(needs: seq<Need>) returns (out: Outcome<Dict<Credentials>>)
      modifies this
      ensures var s := Resolving(env, old(log), needs, 0, []); out == s.out && log == old(log) + s.seg
    {
      ghost var start, whole := log, Resolving(env, log, needs, 0, []);
      var resolved: Dict<Credentials> := [];
      for i := 0 to |needs|
        invariant var rest := Resolving(env, log, needs, i, resolved);
                  whole.out == rest.out && start + whole.seg == log + rest.seg
      {
        match needs[i].ref {
          case None =>
            resolved := Put(resolved, needs[i].role, NO_CREDENTIALS);
          case Some(ref) =>
            var reply := env.ports.resolve(log, ref);
            var event := DidResolve(ref, reply);
            if reply.Done? {
              Extend(log, event, Resolving(env, log + [event], needs, i + 1,
                                           Put(resolved, needs[i].role, reply.value)).seg);
            }
            log := log + [event];
            if !reply.Done? {
              return reply.Outcome().Failed();
            }
            resolved := Put(resolved, needs[i].role, reply.value);
        }
      }
      out := Ok(resolved);
    }

    /** `load_inputs`. */
    method LoadInputs(specs: seq<InputSpec>, credentials: Dict<Credentials>) returns (out: Outcome<Dict<Bytes>>)
      modifies this
      ensures var s := Loading(env, old(log), specs, credentials, 0, []); out == s.out && log == old(log) + s.seg
    {
      ghost var start, whole := log, Loading(env, log, specs, credentials, 0, []);
      var byRole: Dict<Bytes> := [];
      for i := 0 to |specs|
        invariant var rest := Loading(env, log, specs, credentials, i, byRole);
                  whole.out == rest.out && start + whole.seg == log + rest.seg
      {
        var role := specs[i].target.role;
        var creds := Lookup(credentials, role);
        if !creds.Ok? {
          return creds.Failed();
        }
        var reply := env.ports.read(log, specs[i], creds.value);
        var event := DidRead(specs[i], creds.value, reply);
        if reply.Done? {
          Extend(log, event, Loading(env, log + [event], specs, credentials, i + 1,
                                     Put(byRole, role, reply.value)).seg);
        }
        log := log + [event];
        if !reply.Done? {
          return reply.Outcome().Failed();
        }
        byRole := Put(byRole, role, reply.value);
      }
      out := Ok(byRole);
    }

    /** `save_outputs`. */
    method SaveOutputs(specs: seq<OutputSpec>, credentials: Dict<Credentials>, byRole: map<string, Bytes>)
      returns (out: Outcome<Dict<WriteReceipt>>)
      modifies this
      ensures var s := Saving(env, old(log), specs, credentials, byRole, 0, []); out == s.out && log == old(log) + s.seg
    {
      ghost var start, whole := log, Saving(env, log, specs, credentials, byRole, 0, []);
      var receipts: Dict<WriteReceipt> := [];
      for i := 0 to |specs|
        invariant var rest := Saving(env, log, specs, credentials, byRole, i, receipts);
                  whole.out == rest.out && start + whole.seg == log + rest.seg
      {
        var role := specs[i].target.role;
        var payload := Produced(byRole, role);
        if !payload.Ok? {
          return payload.Failed();
        }
        var creds := Lookup(credentials, role);
        if !creds.Ok? {
          return creds.Failed();
        }
        var written := env.ports.write(log, specs[i], payload.value, creds.value);
        var event := DidWrite(specs[i], payload.value, creds.value, written);
        if written.reply.Done? {
          Extend(log, event, Saving(env, log + [event], specs, credentials, byRole, i + 1,
                                    Put(receipts, role, written.reply.value)).seg);
        }
        log := log + [event];
        if !written.reply.Done? {
          return written.reply.Outcome().Failed();
        }
        receipts := Put(receipts, role, written.reply.value);
      }
      out := Ok(receipts);
    }

    /** `authorize`. */
    method Authorize(c: Contract) returns (out: Outcome<()>)
      modifies this
      ensures var s := AuthorizeContract(env, old(log), c); out == s.out && log == old(log) + s.seg
    {
      hide Authorizing;
      out := AuthorizeUris(InputUris(c), c.identity);
      if out.Ok? {
        ghost var a := log[|old(log)|..];
        out := AuthorizeUris(OutputUris(c), c.identity);
        Join(old(log), a, log[|old(log)| + |a|..]);
      }
    }

    /** `resolve_credentials`. */
    method ResolveCredentials(c: Contract) returns (out: Outcome<Bundle>)
      modifies this
      ensures var s := ResolveContract(env, old(log), c); out == s.out && log == old(log) + s.seg
    {
      hide Resolving;
      var inputs := ResolveForSpecs(InputNeeds(c));
      if !inputs.Ok? {
        return inputs.Failed();
      }
      var outputs := ResolveForSpecs(OutputNeeds(c));
      if !outputs.Ok? {
        return outputs.Failed();
      }
      out := Ok(Bundle(inputs.value, outputs.value));
    }

    /** `make_compute_context`, `run_compute` and `validate_readout`. */
    method Compute(c: Contract, inputs: Dict<Bytes>) returns (out: Outcome<Computed>)
      modifies this
      ensures var s := ComputeContract(env, old(log), c, inputs); out == s.out && log == old(log) + s.seg
    {
      var time := env.ports.now(log);
      log := log + [DidStamp(time)];
      if !time.Done? {
        return time.Outcome().Failed();
      }
      var context := ContextOf(c, time.value);
      var reply := env.ports.compute(log, inputs, c.parameters, context);
      log := log + [DidCompute(inputs, c.parameters, context, reply)];
      if !reply.Done? {
        return reply.Outcome().Failed();
      }
      var gate := Gate(reply.value.byRole, context, env.reader);
      if !gate.Ok? {
        return gate.Failed();
      }
      out := Ok(Computed(context, reply.value));
    }

    /** The body of the `try` of `_run_full_pipeline`, once a contract is admitted. */
    method ProcessContract(c: Contract) returns (out: Outcome<Report>)
      modifies this
      ensures var s := Process(env, old(log), c); out == s.out && log == old(log) + s.seg
    {
      hide AuthorizeContract, ResolveContract, Loading, ComputeContract, Saving, SuccessPayload;
      ghost var start := log;
      var auth := Authorize(c);
      ghost var s1 := AuthorizeContract(env, start, c).seg;
      if !auth.Ok? {
        return auth.Failed();
      }
      var credentials := ResolveCredentials(c);
      ghost var s2 := ResolveContract(env, start + s1, c).seg;
      Join(start, s1, s2);
      if !credentials.Ok? {
        return credentials.Failed();
      }
      var inputs := LoadInputs(c.inputs, credentials.value.inputs);
      ghost var s3 := Loading(env, start + (s1 + s2), c.inputs, credentials.value.inputs, 0, []).seg;
      Join(start, s1 + s2, s3);
      if !inputs.Ok? {
        return inputs.Failed();
      }
      var computed := Compute(c, inputs.value);
      ghost var s4 := ComputeContract(env, start + (s1 + s2 + s3), c, inputs.value).seg;
      Join(start, s1 + s2 + s3, s4);
      if !computed.Ok? {
        return computed.Failed();
      }
      var result := computed.value.result;
      var receipts := SaveOutputs(c.outputs, credentials.value.outputs, result.byRole);
      ghost var s5 := Saving(env, start + (s1 + s2 + s3 + s4), c.outputs, credentials.value.outputs, result.byRole, 0,
                             []).seg;
      Join(start, s1 + s2 + s3 + s4, s5);
      if !receipts.Ok? {
        return receipts.Failed();
      }
      var notice := SuccessPayload(c.envelope.requestId, receipts.value, result.metadata);
      var ack := env.ports.notify(log, c.callback, notice);
      Join(start, s1 + s2 + s3 + s4 + s5, [DidNotify(c.callback, notice, ack)]);
      log := log + [DidNotify(c.callback, notice, ack)];
      if !ack.Done? {
        return ack.Outcome().Failed();
      }
      out := Ok(Report(receipts.value, result.metadata, ack.value));
    }

    /** `_run_full_pipeline`. */
    method RunFullPipeline(raw: Bytes) returns (result: Result)
      modifies this
      ensures var r := FullPipeline(env, old(log), raw); result == r.result && log == old(log) + r.seg
    {
      hide Admit, Process, AuthorizeContract, Dispatching, Failed;
      var a := Admit(env, raw);
      if !a.out.Ok? {
        return Failed(a.requestId, a.out.Failed());
      }
      var out := ProcessContract(a.out.value);
      result := if out.Ok? then Success(a.requestId, a.out.value, out.value) else Failed(a.requestId, out.Failed());
    }

    /** `_run_receiver`. */
    method RunReceiver(raw: Bytes) returns (result: Result)
      modifies this
      ensures var r := Receiver(env, old(log), raw); result == r.result && log == old(log) + r.seg
    {
      hide Admit, Process, AuthorizeContract, Dispatching, Failed;
      var a := Admit(env, raw);
      if !a.out.Ok? {
        return Failed(a.requestId, a.out.Failed());
      }
      var auth := Authorize(a.out.value);
      if !auth.Ok? {
        return Failed(a.requestId, auth);
      }
      if env.workerJob.None? {
        return Raised(BadValue);
      }
      var d := Dispatching(env.ports, log, env.text, env.workerJob.value, a.out.value);
      log := log + d.seg;
      result := d.result;
    }

    /** `ServiceRunner.execute`. */
    method Run(raw: Bytes) returns (result: Result)
      modifies this
      ensures var r := Execute(env, old(log), raw); result == r.result && log == old(log) + r.seg
    {
      hide Receiver, FullPipeline;
      if env.mode == RECEIVER {
        result := RunReceiver(raw);
      } else {
        result := RunFullPipeline(raw);
      }
    }
  }

  lemma Join(log: History, a: History, b: History)
    ensures (log + a) + b == log + (a + b)
  {
  }

  lemma Extend(log: History, event: Event, rest: History)
    ensures log + ([event] + rest) == (log + [event]) + rest
  {
  }

  /** `build_runner`: `None` is its ValueError. */
  method BuildRunner(env: Env) returns (runner: ServiceRunner?)
    ensures runner == null <==> env.mode == RECEIVER && env.workerJob.None?
    ensures runner != null ==> fresh(runner) && runner.env == env && runner.log == []
  {
    if env.mode == RECEIVER && env.workerJob.None? {
      return null;
    }
    runner := new ServiceRunner(env);
  }

  /** `SharedReceiverRunner`, over the part of a runner it needs. */
  class SharedReceiverRunner {
    const runner: ServiceRunner
    const registry: Registry.ServiceRegistry

    constructor (runner: ServiceRunner, registry: Registry.ServiceRegistry)
      ensures this.runner == runner && this.registry == registry
    {
      this.runner := runner;
      this.registry := registry;
    }

    method Run(raw: Bytes) returns (result: Result)
      modifies runner
      ensures var r := SharedReceiver(runner.env, registry, old(runner.log), raw);
              result == r.result && runner.log == old(runner.log) + r.seg
    {
      hide DecodeAndValidate, AuthorizeContract, Dispatching, Failed;
      var env := runner.env;
      var a := DecodeAndValidate(env.ports, raw, env.leaves, OpaqueParams);
      if !a.out.Ok? {
        return Failed(a.requestId, a.out.Failed());
      }
      var c := a.out.value;
      var auth := runner.Authorize(c);
      if !auth.Ok? {
        return Failed(a.requestId, auth);
      }
      var job := Registry.Resolve(registry, c.service.name);
      if !job.Ok? {
        return Failed(a.requestId, job.Failed());
      }
      var d := Dispatching(env.ports, runner.log, env.text, job.value, c);
      runner.log := runner.log + d.seg;
      result := d.result;
    }
  }
}
