/**
  The end of the input, on the parser object: 3rd/llhttp/api.c:160-182 against the events.
*/
module Finishing {
  import opened Http
  import opened Semantics
  import opened Grammar
  import opened Parser

  /**
    After a buffer that raised no error, llhttp_finish reports an invalid end of input exactly when the
    events show an unfinished message that is not read until the end of input; such a message it completes
    with one callback, and with no message under way it does nothing.
  */
  method ExecuteThenFinish(parser: Parser, buf: seq<byte>) returns (err: int, end: int, ghost told: seq<Call>)
    requires parser.Valid() && parser.error == 0 && Grammatical(parser.strict, parser.View())
    modifies parser
    ensures parser.Valid()
    ensures err == 0 ==>
              var r := Run(parser.Env(), old(parser.View()), buf);
              && Join(told).trace == r.trace
              && (if !Unfinished(r.trace) then end == 0 && parser.calls == told
                  else if ReadsUntilEof(r.core.node) then
                    parser.calls == told + [Told(MessageComplete)] && end == parser.app(parser.calls)
                  else end == 14 && parser.calls == told)
  {
    ghost var k := parser.View();
    FinishExactly(parser.Env(), k, buf);
    RunGrammar(parser.Env(), k, buf);
    hide Run, Grammatical, Follows, Join, Scan;
    err := parser.Execute(buf);
    told := parser.calls;
    end := 0;
    if err == 0 {
      CompletedByEof(parser.strict, parser.View());
      end := parser.Finish();
    }
  }
}
