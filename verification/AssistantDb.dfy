/** The assistant store as the program keeps it, each method tied to the value-level operation of `Assistants`. */
module AssistantDb {
  import opened Wrappers
  import opened TtlCache
  import Assistants

  class AssistantDb {
    var docs: map<int, Assistants.Doc>
    const cache: Cache<int, int>

    ghost function View(): Assistants.Store
      reads this, cache
    {
      Assistants.Store(docs, cache.data)
    }

    ghost predicate Valid()
    {
      cache.ttl == Assistants.TTL
    }

    constructor ()
      ensures Valid() && fresh(cache) && View() == Assistants.Store(map[], map[])
    {
      docs := map[];
      cache := new Cache<int, int>(Assistants.TTL);
    }

    method GetAssistant(chat: int, now: int) returns (num: int)
      requires Valid()
      modifies cache
      ensures (num, View()) == Assistants.GetAssistant(old(View()), chat, now)
    {
      var cached := cache.Get(chat, now);
      if cached.Some? {
        return cached.value;
      }
      if chat !in docs {
        return -1;
      }
      num := if docs[chat].Some? then docs[chat].value else 0;
      cache.Set(chat, num, now);
    }

    method SetAssistant(chat: int, num: int, now: int)
      requires Valid()
      modifies this, cache
      ensures View() == Assistants.SetAssistant(old(View()), chat, num, now)
    {
      docs := docs[chat := Some(num)];
      cache.Set(chat, num, now);
    }

    method RemoveAssistant(chat: int)
      requires Valid()
      modifies this, cache
      ensures View() == Assistants.RemoveAssistant(old(View()), chat)
    {
      docs := docs - {chat};
      cache.Delete(chat);
    }

    /** The conditional upsert: how many documents it modified or inserted, or a duplicate-key error. */
    method UpdateIfUnassigned(chat: int, num: int) returns (changed: nat, duplicate: bool)
      modifies this
      ensures duplicate == !Assistants.Unassigned(old(View()), chat)
      ensures docs == if duplicate then old(docs) else old(docs)[chat := Some(num)]
      ensures changed == if docs == old(docs) then 0 else 1
    {
      changed, duplicate := 0, false;
      if chat !in docs || docs[chat] == None {
        assert chat in docs[chat := Some(num)];
        docs, changed := docs[chat := Some(num)], 1;
      } else if docs[chat].value == -1 {
        changed := if num == -1 then 0 else 1;
        docs := docs[chat := Some(num)];
      } else {
        duplicate := true;
      }
    }

    method AssignAssistant(chat: int, proposed: int, now: int) returns (num: int)
      requires Valid()
      modifies this, cache
      ensures (num, View()) == Assistants.AssignAssistant(old(View()), chat, proposed, now)
    {
      var changed, duplicate := UpdateIfUnassigned(chat, proposed);
      if duplicate {
        num := GetAssistant(chat, now);
      } else if changed > 0 {
        cache.Set(chat, proposed, now);
        num := proposed;
      } else {
        num := GetAssistant(chat, now);
      }
    }

    method ClearAllAssistants() returns (deleted: nat)
      requires Valid()
      modifies this, cache
      ensures View() == Assistants.ClearAll(old(View())) && deleted == |old(docs)|
    {
      deleted := |docs|;
      docs := map[];
      cache.Clear();
    }
  }
}
