/** How the application sits on the message framework: a post of the application's model is a
    create-and-send of the framework, seen through the mailboxes. */
module Embedding {
  import opened Messages
  import opened Calls
  import opened Ownership
  import opened Mailboxes
  import opened Outcomes
  import opened AppMessages
  import opened Application

  /** The task's queue holds the messages of the model's queue, and has its depth. */
  ghost predicate TaskIn(task: Task, t: TaskId, s: Sys) {
    var q: QueueId := IdOf(t);
    && Mail(s, q) == task.queue
    && q in s.queues && s.queues[q].depth == 32
    && task.registered == s.slots[IdOf(t)].inUse
    && (task.registered ==> s.slots[IdOf(t)].receiver.Some? && s.slots[IdOf(t)].receiver.value.queue == Some(q))
  }

  ghost predicate Embeds(a: App, s: Sys) {
    forall t :: TaskIn(TaskAt(a, t), t, s)
  }

  lemma SentKeeps(s: Sys, c: Create, rx: Byte, grants: Grants)
    requires c.route == Direct(rx)
    ensures var s1 := Sent(s, c, grants);
            && s1.slots == s.slots && s1.queues.Keys == s.queues.Keys
            && forall q :: q in s.queues ==> s1.queues[q].depth == s.queues[q].depth
  {
    CreateAndSendOutcome(s, c, rx, grants);
    hide Finish;
  }

  lemma AcceptsMeans(s: Sys, task: Task, t: TaskId, code: Byte, grant: Option<Ptr>)
    requires TaskIn(task, t, s) && code != SMC_INVALID
    ensures WillQueue(s, IdOf(t), code, grant)
       <==> Granted(s, grant).Some? && task.registered && |task.queue| < QUEUE_DEPTH
  {
    assert |Mail(s, IdOf(t))| == |Items(s, IdOf(t))|;
    hide Mail;
  }

  /** Every post of the application, by a handler or by a timer, is refined by the framework's code: from
      matching states, sysmsg_create_and_send and its like lead to matching states, whether the message
      is queued, or refused for want of a buffer, a receiver or room. */
  lemma DeliverRefines(a: App, w: World, tid: Tid, c: Create, t: TaskId, grants: Grants)
    requires Owns(w) && Embeds(a, w.sys) && c.route == Direct(IdOf(t)) && c.msg.code != SMC_INVALID
    ensures Embeds(Fire(a, c, Granted(w.sys, grants(0)).Some?), Sent(w.sys, c, grants))
  {
    var s1, granted := Sent(w.sys, c, grants), Granted(w.sys, grants(0)).Some?;
    var b := Fire(a, c, granted);
    assert TaskIn(TaskAt(a, t), t, w.sys);
    SentKeeps(w.sys, c, IdOf(t), grants);
    AcceptsMeans(w.sys, TaskAt(a, t), t, c.msg.code, grants(0));
    FireTasks(a, c, t, granted);
    hide Sent, Mail, Fire, Owns, WillQueue, Granted;
    forall u ensures TaskIn(TaskAt(b, u), u, s1) {
      assert TaskIn(TaskAt(a, u), u, w.sys);
      SentMail(w, tid, c, IdOf(t), grants, IdOf(u));
    }
  }

  lemma SentMail(w: World, tid: Tid, c: Create, rx: Byte, grants: Grants, q: QueueId)
    requires Owns(w) && c.route == Direct(rx)
    ensures Mail(Sent(w.sys, c, grants), q)
         == (if WillQueue(w.sys, rx, c.msg.code, grants(0)) && w.sys.slots[rx].receiver.value.queue == Some(q)
             then Mail(w.sys, q) + [c.msg.(rx := rx)] else Mail(w.sys, q))
  {
    CreateAndSendMail(w, tid, c, rx, grants, q);
    hide Finish, Mail, Owns;
    assert Mail(w.sys, q) + [] == Mail(w.sys, q);
  }

  lemma FireTasks(a: App, c: Create, t: TaskId, granted: bool)
    requires c.route == Direct(IdOf(t))
    ensures var b, task := Fire(a, c, granted), TaskAt(a, t);
            && (forall u :: u != t ==> TaskAt(b, u) == TaskAt(a, u))
            && TaskAt(b, t) == if granted && task.registered && |task.queue| < QUEUE_DEPTH
                               then task.(queue := task.queue + [c.msg.(rx := IdOf(t))]) else task
  {
    hide KindOf;
  }
}
