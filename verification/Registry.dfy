/** The in-process registry: one token per running task, released only by the token that holds it. */
module Registry {
  import R = Runlog

  const GENERATIONS := 0x1_0000_0000_0000_0000

  /** A lease on a task name; identity is the object, not its contents. */
  class Token {
    const name: string
    const gen: nat

    constructor (name: string, gen: nat)
      ensures this.name == name && this.gen == gen
    {
      this.name, this.gen := name, gen;
    }
  }

  class Registry {
    var running: map<string, Token>
    var gen: nat
    ghost const history: R.History

    /** Every held token is filed under its own name and its generation has been reached. */
    ghost predicate Valid()
      reads this
    {
      gen < GENERATIONS && forall n :: n in running ==> running[n].name == n
    }

    constructor (ghost history: R.History)
      ensures Valid() && running == map[] && gen == 0 && this.history == history
    {
      running, gen, this.history := map[], 0, history;
    }

    /** Refused exactly while the task is held; otherwise a new token, of the next generation (a 64-bit
        counter), holds it. */
    method Acquire(name: string) returns (tok: Token?, ok: bool)
      requires Valid()
      modifies this, history
      ensures Valid()
      ensures history.deeds == old(history.deeds) + [if ok then R.Took(name) else R.Refused(name)]
      ensures ok <==> name !in old(running)
      ensures ok ==> tok != null && fresh(tok) && tok.name == name && tok.gen == gen
                     && gen == (old(gen) + 1) % 18_446_744_073_709_551_616
                     && running == old(running)[name := tok]
      ensures !ok ==> tok == null && running == old(running) && gen == old(gen)
    {
      if name in running {
        history.Add(R.Refused(name));
        return null, false;
      }
      gen := (gen + 1) % GENERATIONS;
      tok := new Token(name, gen);
      running := running[name := tok];
      history.Add(R.Took(name));
      ok := true;
    }

    /** Drops the hold only if this very token has it; nil, stale and repeated releases change nothing. */
    method Release(t: Token?)
      requires Valid()
      modifies this`running, history
      ensures Valid()
      ensures t != null && t.name in old(running) && old(running)[t.name] == t
              ==> running == old(running) - {t.name} && history.deeds == old(history.deeds) + [R.Gave(t.name)]
      ensures !(t != null && t.name in old(running) && old(running)[t.name] == t)
              ==> running == old(running) && history.deeds == old(history.deeds)
    {
      if t == null { return; }
      if t.name in running && running[t.name] == t {
        running := running - {t.name};
        history.Add(R.Gave(t.name));
      }
    }
  }
}
