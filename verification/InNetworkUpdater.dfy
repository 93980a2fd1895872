/** The in-network updater's dictionaries as its methods change them. */
module InNetworkUpdater {
  import opened OtfProgram
  import opened OtfDispatch
  import opened TenantDefinitions

  class Updater {
    /** Per accelerator: tenants_code_definitions, tenants_cnf_name_id and the
        functions registered with its generator. */
    var sides: map<Accelerator, Side>
    /** tenant_cnf_accelerator_map */
    var live: map<Tenant, Accelerator>
    /** old_tenant_cnf_accelerator_map */
    var retired: map<Tenant, Accelerator>

    ghost function Contents(): State
      reads this
    {
      State(sides, live, retired)
    }

    ghost predicate Valid()
      reads this
    {
      Inv(Contents())
    }

    constructor (enabled: set<Accelerator>)
      ensures Valid() && Contents() == Initial(enabled)
    {
      sides := map a | a in enabled :: Side(map[], map[], []);
      live := map[];
      retired := map[];
    }

    /** _create_tenant_definition. */
    method CreateTenantDefinition(r: Request)
      requires r.accelerator in sides
      modifies this
      ensures Contents() == Create(old(Contents()), r)
    {
      var side := sides[r.accelerator];
      side := side.(ids := side.ids[r.tenant := r.draw]);
      sides := sides[r.accelerator := side];
      live := live[r.tenant := r.accelerator];
      retired := retired - {r.tenant};
      side := side.(defs := side.defs[r.tenant := Definition(r.draw, r.code, r.mainIngress, r.vnis)]);
      sides := sides[r.accelerator := side];
    }

    /** The other branch: overwrite the fields of a known definition. */
    method RenewTenantDefinition(r: Request)
      requires r.accelerator in sides && r.tenant in sides[r.accelerator].defs
      modifies this
      ensures Contents() == Renew(old(Contents()), r)
    {
      var side := sides[r.accelerator];
      var d := side.defs[r.tenant];
      d := d.(code := r.code);
      d := d.(mainIngress := r.mainIngress);
      d := d.(vnis := r.vnis);
      sides := sides[r.accelerator := side.(defs := side.defs[r.tenant := d])];
      if r.tenant in retired {
        live := live[r.tenant := retired[r.tenant]];
        retired := retired - {r.tenant};
      }
    }

    /** An operation on the accelerator's generator; false stands for the KeyError. */
    method Operate(a: Accelerator, op: Operation) returns (ok: bool)
      requires a in sides
      modifies this`sides
      ensures ok <==> Perform(old(sides[a].otfs), op).Some?
      ensures sides == old(sides)[a := old(sides[a]).(otfs := After(old(sides[a].otfs), op))]
    {
      var table := Perform(sides[a].otfs, op);
      if table.None? {
        assert sides[a].(otfs := sides[a].otfs) == sides[a];
        return false;
      }
      sides := sides[a := sides[a].(otfs := table.value)];
      return true;
    }

    /** The branches on the update action. */
    method ApplyAction(r: Request) returns (ok: bool)
      requires r.accelerator in sides && r.tenant in sides[r.accelerator].defs
      modifies this
      ensures Outcome(Contents(), ok) == Apply(old(Contents()), r)
    {
      hide Perform, HasKey;
      var otf := Otf(r.vnis, sides[r.accelerator].defs[r.tenant].funcId, r.mainIngress, r.code);
      match r.action {
        case OTHER =>
          return false;
        case CREATE =>
          ok := Operate(r.accelerator, Add(r.tenant, otf));
          return ok && (r.reply.Found? || r.reply.Missing?);
        case UPDATE =>
          UpdatesKnown(sides[r.accelerator].otfs, r.tenant, otf);
          ok := Operate(r.accelerator, Update(r.tenant, otf));
          if !ok {
            ok := Operate(r.accelerator, Add(r.tenant, otf));
          }
          return ok;
        case DELETE =>
          ok := Operate(r.accelerator, Delete(r.tenant));
          if !ok || !r.fileOk || r.tenant !in live {
            return false;
          }
          var a := live[r.tenant];
          live := live - {r.tenant};
          retired := retired[r.tenant := a];
          return !r.reply.Raised?;
      }
    }

    /** _preprocess up to the generation of the templates. */
    method Preprocess(rs: seq<Request>) returns (ok: bool)
      requires Valid()
      modifies this
      ensures Valid() && Outcome(Contents(), ok) == TenantDefinitions.Preprocess(old(Contents()), rs)
    {
      hide Inv, Apply, Create, Renew;
      PreprocessKeepsInv(Contents(), rs);
      var i := 0;
      while i < |rs|
        invariant 0 <= i <= |rs|
        invariant TenantDefinitions.Preprocess(Contents(), rs[i..]) == TenantDefinitions.Preprocess(old(Contents()), rs)
      {
        var r := rs[i];
        assert rs[i..][0] == r && rs[i..][1..] == rs[i + 1..];
        if r.accelerator !in sides {
          return false;
        }
        ghost var before := Contents();
        DefineDefines(before, r);
        if r.tenant !in sides[r.accelerator].defs {
          CreateTenantDefinition(r);
        } else {
          RenewTenantDefinition(r);
        }
        if r.unspecified {
          return false;
        }
        var applied := ApplyAction(r);
        if !applied {
          return false;
        }
        i := i + 1;
      }
      assert rs[i..] == [];
      return true;
    }

    /** The dictionary part of Cleanup for the first enabled accelerator. */
    method Cleanup(first: Accelerator, keys: seq<Tenant>, stuck: set<Tenant>)
      requires Valid() && first in sides
      modifies this
      ensures Valid() && Contents() == Clean(old(Contents()), first, keys, stuck)
    {
      hide Inv, After, HasKey;
      CleanKeepsInv(Contents(), first, keys, stuck);
      var i := 0;
      while i < |keys|
        invariant 0 <= i <= |keys| && first in sides
        invariant Clean(Contents(), first, keys[i..], stuck) == Clean(old(Contents()), first, keys, stuck)
      {
        var key := keys[i];
        assert keys[i..][0] == key && keys[i..][1..] == keys[i + 1..];
        var side := sides[first];
        if key in side.defs {
          side := side.(defs := side.defs - {key});
          if key in side.ids {
            side := side.(ids := side.ids - {key});
            var registered := HasKey(side.otfs, key);
            side := side.(otfs := After(side.otfs, Delete(key)));
            sides := sides[first := side];
            if registered && key in stuck {
              return;
            }
          } else {
            sides := sides[first := side];
          }
        }
        i := i + 1;
      }
    }
  }

  lemma UpdatesKnown(t: Table, key: string, otf: Otf)
    ensures Perform(t, Update(key, otf)).Some? <==> HasKey(t, key)
    ensures !HasKey(t, key) ==> Perform(t, Add(key, otf)).Some?
  {
  }
}
